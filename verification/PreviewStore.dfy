/** The preview rows of a thread: time-limited, read-only grants to contacts outside it. */
module PreviewStore {
  import opened Wrappers
  import opened ThreadModel

  const MAX_PREVIEW_MS := 3_600_000

  predicate Open(p: Preview, c: ContactId) {
    p.contact == c && p.closed.None?
  }

  /** The newest unrevoked and unexpired row of the contact. */
  function FindActive(previews: seq<Preview>, c: ContactId, now: int): (k: Option<nat>)
    ensures k.Some? ==> k.value < |previews| && Open(previews[k.value], c) && now < previews[k.value].expires
    ensures k.None? ==> forall i :: 0 <= i < |previews| && Open(previews[i], c) ==> previews[i].expires <= now
  {
    if previews == [] then None
    else
      var n := |previews| - 1;
      if Open(previews[n], c) && now < previews[n].expires then Some(n)
      else FindActive(previews[..n], c, now)
  }

  function Revoke(previews: seq<Preview>, k: nat, how: Closing): (after: seq<Preview>)
    requires k < |previews|
    ensures |after| == |previews|
  {
    previews[k := previews[k].(closed := Some(how))]
  }

  /** Closes the contact's lapsed rows. */
  function Expire(previews: seq<Preview>, c: ContactId, now: int): (after: seq<Preview>)
    ensures |after| == |previews|
    ensures forall i :: 0 <= i < |previews| ==>
      after[i] == if Open(previews[i], c) && previews[i].expires <= now
                  then previews[i].(closed := Some(ByExpiry)) else previews[i]
  {
    seq(|previews|, i requires 0 <= i < |previews| =>
      if Open(previews[i], c) && previews[i].expires <= now
      then previews[i].(closed := Some(ByExpiry)) else previews[i])
  }

  /** Moves the expiry of an active preview, or starts a new one. */
  function Upsert(previews: seq<Preview>, c: ContactId, ttl: int, now: int): (after: seq<Preview>) {
    var kept := Expire(previews, c, now);
    var active := FindActive(kept, c, now);
    if active.Some? then kept[active.value := kept[active.value].(expires := now + ttl)]
    else kept + [Preview(c, now + ttl, None)]
  }

  /** At most one row per contact is unrevoked. */
  predicate OneOpen(previews: seq<Preview>) {
    forall i, j :: 0 <= i < j < |previews| && previews[i].closed.None? && previews[j].closed.None? ==>
      previews[i].contact != previews[j].contact
  }

  lemma UpsertKeepsOneOpen(previews: seq<Preview>, c: ContactId, ttl: int, now: int)
    requires OneOpen(previews)
    ensures OneOpen(Upsert(previews, c, ttl, now))
  {
    var kept := Expire(previews, c, now);
    assert OneOpen(kept);
    if FindActive(kept, c, now).None? {
      assert forall i :: 0 <= i < |kept| ==> !Open(kept[i], c);
    }
  }

  // ----- counting a contact's rows -----

  /** The rows granted to a contact, or only those an upgrade closed. */
  function Count(previews: seq<Preview>, c: ContactId, upgraded: bool): (n: nat) {
    if previews == [] then 0
    else
      var n := |previews| - 1;
      Count(previews[..n], c, upgraded) + if Counts(previews[n], c, upgraded) then 1 else 0
  }

  predicate Counts(p: Preview, c: ContactId, upgraded: bool) {
    p.contact == c && (upgraded ==> p.closed == Some(ByUpgrade))
  }

  lemma {:induction false} UpgradedWithinGranted(previews: seq<Preview>, c: ContactId)
    ensures Count(previews, c, true) <= Count(previews, c, false)
  {
    if previews != [] {
      UpgradedWithinGranted(previews[..|previews| - 1], c);
    }
  }

  /** Rewriting one row changes the number by that row alone. */
  lemma {:induction false} CountAfterUpdate(previews: seq<Preview>, k: nat, p: Preview, c: ContactId, upgraded: bool)
    requires k < |previews|
    ensures Count(previews[k := p], c, upgraded) ==
      Count(previews, c, upgraded) - (if Counts(previews[k], c, upgraded) then 1 else 0)
                                   + (if Counts(p, c, upgraded) then 1 else 0)
  {
    var n := |previews| - 1;
    if k == n {
      assert previews[k := p][..n] == previews[..n];
    } else {
      assert previews[k := p][..n] == previews[..n][k := p];
      CountAfterUpdate(previews[..n], k, p, c, upgraded);
    }
  }

  lemma {:induction false} CountSame(a: seq<Preview>, b: seq<Preview>, c: ContactId, upgraded: bool)
    requires |a| == |b|
    requires forall i :: 0 <= i < |a| ==> (Counts(a[i], c, upgraded) <==> Counts(b[i], c, upgraded))
    ensures Count(a, c, upgraded) == Count(b, c, upgraded)
  {
    if a != [] {
      CountSame(a[..|a| - 1], b[..|b| - 1], c, upgraded);
    }
  }

  /** Giving a preview adds at most one row, for that contact alone, and never an upgraded one. */
  lemma CountAfterUpsert(previews: seq<Preview>, d: ContactId, ttl: int, now: int, c: ContactId)
    ensures Count(Upsert(previews, d, ttl, now), c, true) == Count(previews, c, true)
    ensures Count(Upsert(previews, d, ttl, now), c, false) <= Count(previews, c, false) + if c == d then 1 else 0
  {
    var kept := Expire(previews, d, now);
    CountSame(previews, kept, c, true);
    CountSame(previews, kept, c, false);
    var active := FindActive(kept, d, now);
    if active.Some? {
      CountAfterUpdate(kept, active.value, kept[active.value].(expires := now + ttl), c, true);
      CountAfterUpdate(kept, active.value, kept[active.value].(expires := now + ttl), c, false);
    } else {
      assert (kept + [Preview(d, now + ttl, None)])[..|kept|] == kept;
    }
  }
}
