// Frames, the identifier lists that link them (src/id/id.cpp:205-238) and
// `link_vector` (src/id/id_api.cpp:57-133), on values.

module Frames {
  import opened Bytes
  import opened Ids
  import opened IdSets

  /** A frame as the rest of the program reads it: times, packets and the two
      packed identifier lists. */
  datatype FrameData = FrameData(
    start: uint64, ttl: uint32, entry: uint64, packets: seq<seq<byte>>, back: seq<byte>, fwd: seq<byte>)
  {
    /** `get_end_time_micro_s`: a 64-bit sum. */
    function End(): uint64 {
      (start + ttl) % U64
    }

    /** The `BETWEEN` test of the time seek. */
    predicate Covers(t: uint64) {
      start <= t <= End()
    }
  }

  /** The frames that a lookup by identifier finds. */
  type Store = map<Id, FrameData>

  type Links = (seq<Id>, seq<Id>)

  function GetLinks(f: FrameData): Result<Links> {
    var back :- Expand(f.back);
    var fwd :- Expand(f.fwd);
    Ok((back, fwd))
  }

  /** A frame never links to itself. */
  function SetLinks(f: FrameData, self: Id, links: Links): FrameData {
    f.(back := Compact(Without(links.0, self)), fwd := Compact(Without(links.1, self)))
  }

  // ----- linking -----

  function Min(a: int, b: int): int {
    if a < b then a else b
  }

  function Max(a: int, b: int): int {
    if a < b then b else a
  }

  /** Up to `depth` identifiers before position `i`, nearest last. */
  function Before(v: seq<Id>, i: nat, depth: nat): seq<Id>
    requires i < |v|
  {
    v[Max(0, i - depth)..i]
  }

  /** Up to `depth` identifiers after position `i`, nearest first. */
  function After(v: seq<Id>, i: nat, depth: nat): seq<Id>
    requires i < |v|
  {
    v[i + 1..Min(|v|, i + 1 + depth)]
  }

  /** The lists the loop gives to frame `i`: an existing list stays. */
  function NewLinks(now: Links, v: seq<Id>, depth: nat, i: nat): Links
    requires i < |v|
  {
    (if now.0 == [] then Before(v, i, depth) else now.0, if now.1 == [] then After(v, i, depth) else now.1)
  }

  /** The assertions of the loop. */
  predicate LinksAgree(links: Links, v: seq<Id>, i: nat)
    requires i < |v|
  {
    && (if links.0 == [] then i == 0 else i > 0 && links.0[|links.0| - 1] == v[i - 1])
    && (if links.1 == [] then i == |v| - 1 else i < |v| - 1 && links.1[0] == v[i + 1])
  }

  datatype Linked = Linked(store: Store, ok: bool)

  function LinkOne(store: Store, v: seq<Id>, depth: nat, i: nat): Linked
    requires i < |v|
  {
    var id := v[i];
    if id !in store || GetLinks(store[id]).Err? then Linked(store, false)
    else
      var links := NewLinks(GetLinks(store[id]).value, v, depth, i);
      if LinksAgree(links, v, i) then Linked(store[id := SetLinks(store[id], id, links)], true)
      else Linked(store, false)
  }

  function LinkFrom(store: Store, v: seq<Id>, depth: nat, i: nat): Linked
    requires i <= |v|
    decreases |v| - i
  {
    if i == |v| then Linked(store, true)
    else
      var next := LinkOne(store, v, depth, i);
      if next.ok then LinkFrom(next.store, v, depth, i + 1) else next
  }

  /** Two identifiers are linked to each other whatever they were linked to. */
  function LinkPair(store: Store, a: Id, b: Id): Linked {
    if a !in store then Linked(store, false)
    else
      var first := store[a := SetLinks(store[a], a, ([], [b]))];
      if b !in first then Linked(first, false)
      else Linked(first[b := SetLinks(first[b], b, ([a], []))], true)
  }

  function LinkVector(store: Store, v: seq<Id>, depth: nat): Linked {
    if !AllValid(v) then Linked(store, false)
    else if |v| <= 1 then Linked(store, true)
    else if |v| == 2 then LinkPair(store, v[0], v[1])
    else LinkFrom(store, v, depth, 0)
  }

  // ----- what linking achieves -----

  predicate Distinct(v: seq<Id>) {
    forall i, j :: 0 <= i < j < |v| ==> v[i] != v[j]
  }

  predicate Stored(store: Store, v: seq<Id>) {
    forall i :: 0 <= i < |v| ==> v[i] in store
  }

  predicate Fresh(store: Store, v: seq<Id>)
    requires Stored(store, v)
  {
    forall i :: 0 <= i < |v| ==> store[v[i]].back == [] && store[v[i]].fwd == []
  }

  function WithLinks(f: FrameData, v: seq<Id>, i: nat, depth: nat): FrameData
    requires i < |v|
  {
    f.(back := Compact(Before(v, i, depth)), fwd := Compact(After(v, i, depth)))
  }

  /** The first `n` frames of `v` are linked with the given depth, and nothing
      else differs from `store`. */
  predicate LinkedUpTo(store: Store, now: Store, v: seq<Id>, depth: nat, n: nat)
    requires n <= |v| && Stored(store, v)
  {
    && now.Keys == store.Keys
    && (forall i :: 0 <= i < n ==> now[v[i]] == WithLinks(store[v[i]], v, i, depth))
    && (forall id :: id in store && id !in v[..n] ==> now[id] == store[id])
  }

  lemma {:induction false} WithoutAbsent(ids: seq<Id>, id: Id)
    requires id !in ids
    ensures Without(ids, id) == ids
  {
    if ids != [] {
      WithoutAbsent(ids[1..], id);
    }
  }

  /** Linking a frame to its neighbours stores exactly those lists. */
  lemma SetNeighbours(f: FrameData, v: seq<Id>, i: nat, depth: nat)
    requires i < |v| && Distinct(v)
    ensures SetLinks(f, v[i], (Before(v, i, depth), After(v, i, depth))) == WithLinks(f, v, i, depth)
  {
    hide Without, Compact;
    WithoutAbsent(Before(v, i, depth), v[i]);
    WithoutAbsent(After(v, i, depth), v[i]);
  }

  lemma GetNeighbours(f: FrameData, v: seq<Id>, i: nat, depth: nat)
    requires i < |v| && AllValid(v)
    ensures GetLinks(WithLinks(f, v, i, depth)) == Ok((Before(v, i, depth), After(v, i, depth)))
  {
    hide Expand, Compact, ValidId;
    CompactRoundTrip(Before(v, i, depth));
    CompactRoundTrip(After(v, i, depth));
  }

  lemma GetFresh(f: FrameData)
    requires f.back == [] && f.fwd == []
    ensures GetLinks(f) == Ok(([], []))
  {
  }

  lemma NeighboursAgree(v: seq<Id>, i: nat, depth: nat)
    requires i < |v| && depth >= 1
    ensures LinksAgree((Before(v, i, depth), After(v, i, depth)), v, i)
  {
  }

  lemma NotBefore(ids: seq<Id>, n: nat)
    requires n < |ids| && Distinct(ids)
    ensures ids[n] !in ids[..n] && forall k :: 0 <= k < n ==> ids[k] != ids[n]
    ensures forall id :: id in ids[..n + 1] <==> id in ids[..n] || id == ids[n]
  {
    assert ids[..n + 1] == ids[..n] + [ids[n]];
  }

  lemma LinkedUpToStep(store: Store, now: Store, v: seq<Id>, depth: nat, i: nat)
    requires i < |v| && Distinct(v) && Stored(store, v)
    requires LinkedUpTo(store, now, v, depth, i)
    ensures v[i] in now && now[v[i]] == store[v[i]]
    ensures LinkedUpTo(store, now[v[i] := WithLinks(store[v[i]], v, i, depth)], v, depth, i + 1)
  {
    hide WithLinks, Distinct;
    NotBefore(v, i);
  }

  lemma LinkOneFresh(store: Store, now: Store, v: seq<Id>, depth: nat, i: nat)
    requires i < |v| && depth >= 1 && Distinct(v) && Stored(store, v) && Fresh(store, v)
    requires LinkedUpTo(store, now, v, depth, i)
    ensures var next := LinkOne(now, v, depth, i);
      next.ok && LinkedUpTo(store, next.store, v, depth, i + 1)
  {
    hide GetLinks, SetLinks, WithLinks, LinksAgree, Before, After, LinkedUpTo, Distinct;
    LinkedUpToStep(store, now, v, depth, i);
    GetFresh(now[v[i]]);
    NeighboursAgree(v, i, depth);
    SetNeighbours(now[v[i]], v, i, depth);
  }

  lemma {:induction false} LinkFromFresh(store: Store, now: Store, v: seq<Id>, depth: nat, i: nat)
    requires i <= |v| && depth >= 1 && Distinct(v) && Stored(store, v) && Fresh(store, v)
    requires LinkedUpTo(store, now, v, depth, i)
    ensures var done := LinkFrom(now, v, depth, i);
      done.ok && LinkedUpTo(store, done.store, v, depth, |v|)
    decreases |v| - i
  {
    hide LinkOne, LinkedUpTo;
    if i < |v| {
      LinkOneFresh(store, now, v, depth, i);
      LinkFromFresh(store, LinkOne(now, v, depth, i).store, v, depth, i + 1);
    }
  }

  /** Fresh distinct frames get exactly their neighbours up to the depth on
      either side, no assertion fails, and nothing else changes. */
  lemma LinkVectorLinks(store: Store, v: seq<Id>, depth: nat)
    requires depth >= 1 && AllValid(v) && Distinct(v) && Stored(store, v) && Fresh(store, v)
    ensures var done := LinkVector(store, v, depth);
      done.ok && LinkedUpTo(store, done.store, v, depth, |v|)
  {
    hide LinkFrom, LinkPair, Fresh, AllValid;
    if |v| <= 1 {
      SingleLinked(store, v, depth);
    } else if |v| == 2 {
      PairLinked(store, v, depth);
    } else {
      LinkFromFresh(store, store, v, depth, 0);
    }
  }

  lemma SingleLinked(store: Store, v: seq<Id>, depth: nat)
    requires |v| <= 1 && Stored(store, v) && Fresh(store, v)
    ensures LinkedUpTo(store, store, v, depth, |v|)
  {
    hide WithLinks;
    if |v| == 1 {
      AloneIsLinked(store[v[0]], v, depth);
    }
  }

  lemma AloneIsLinked(f: FrameData, v: seq<Id>, depth: nat)
    requires |v| == 1 && f.back == [] && f.fwd == []
    ensures WithLinks(f, v, 0, depth) == f
  {
    hide CompactCopy;
    assert Before(v, 0, depth) == [] && After(v, 0, depth) == [];
  }

  lemma PairLinked(store: Store, v: seq<Id>, depth: nat)
    requires |v| == 2 && depth >= 1 && Distinct(v) && Stored(store, v)
    ensures var done := LinkPair(store, v[0], v[1]);
      done.ok && LinkedUpTo(store, done.store, v, depth, 2)
  {
    hide SetLinks, WithLinks;
    PairNeighbours(v, depth);
    SetNeighbours(store[v[0]], v, 0, depth);
    SetNeighbours(store[v[1]], v, 1, depth);
    assert v[..2] == v;
  }

  lemma PairNeighbours(v: seq<Id>, depth: nat)
    requires |v| == 2 && depth >= 1
    ensures Before(v, 0, depth) == [] && After(v, 0, depth) == [v[1]]
    ensures Before(v, 1, depth) == [v[0]] && After(v, 1, depth) == []
  {
    hide Before, After;
    PairBounds(v, depth);
    assert v[0..0] == [] && v[1..2] == [v[1]];
    assert v[0..1] == [v[0]] && v[2..2] == [];
  }

  lemma PairBounds(v: seq<Id>, depth: nat)
    requires |v| == 2 && depth >= 1
    ensures Before(v, 0, depth) == v[0..0] && After(v, 0, depth) == v[1..2]
    ensures Before(v, 1, depth) == v[0..1] && After(v, 1, depth) == v[2..2]
  {
    assert Max(0, 0 - depth) == 0 && Max(0, 1 - depth) == 0;
    assert Min(2, 1 + depth) == 2 && Min(2, 2 + depth) == 2;
  }

  // ----- linking again -----

  /** Every frame of `v` carries the packed lists of its neighbours. */
  predicate IsLinked(store: Store, v: seq<Id>, depth: nat) {
    && Stored(store, v)
    && forall i :: 0 <= i < |v| ==> store[v[i]] == WithLinks(store[v[i]], v, i, depth)
  }

  lemma LinkedUpToIsLinked(store: Store, now: Store, v: seq<Id>, depth: nat)
    requires Stored(store, v) && LinkedUpTo(store, now, v, depth, |v|)
    ensures IsLinked(now, v, depth)
  {
    hide Before, After, Compact;
  }

  lemma LinkOneAgain(store: Store, v: seq<Id>, depth: nat, again: nat, i: nat)
    requires i < |v| && depth >= 1 && AllValid(v) && Distinct(v) && IsLinked(store, v, depth)
    ensures LinkOne(store, v, again, i) == Linked(store, true)
  {
    hide GetLinks, SetLinks, WithLinks, AllValid;
    var f := store[v[i]];
    GetNeighbours(f, v, i, depth);
    NeighboursAgree(v, i, depth);
    SetNeighbours(f, v, i, depth);
    EndsHaveNoNeighbours(v, i, depth, again);
    assert store[v[i] := f] == store;
  }

  lemma EndsHaveNoNeighbours(v: seq<Id>, i: nat, depth: nat, again: nat)
    requires i < |v| && depth >= 1
    ensures Before(v, i, depth) == [] ==> Before(v, i, again) == []
    ensures After(v, i, depth) == [] ==> After(v, i, again) == []
  {
  }

  lemma {:induction false} LinkFromAgain(store: Store, v: seq<Id>, depth: nat, again: nat, i: nat)
    requires i <= |v| && depth >= 1 && AllValid(v) && Distinct(v) && IsLinked(store, v, depth)
    ensures LinkFrom(store, v, again, i) == Linked(store, true)
    decreases |v| - i
  {
    hide LinkOne, IsLinked, AllValid;
    if i < |v| {
      LinkOneAgain(store, v, depth, again, i);
      LinkFromAgain(store, v, depth, again, i + 1);
    }
  }

  /** Linking linked frames again, with any depth, changes nothing. */
  lemma LinkVectorIsIdempotent(store: Store, v: seq<Id>, depth: nat, again: nat)
    requires depth >= 1 && AllValid(v) && Distinct(v) && IsLinked(store, v, depth)
    ensures LinkVector(store, v, again) == Linked(store, true)
  {
    hide LinkFrom, LinkPair, AllValid;
    if |v| == 2 {
      PairAgain(store, v, depth);
    } else if |v| > 2 {
      LinkFromAgain(store, v, depth, again, 0);
    }
  }

  lemma PairAgain(store: Store, v: seq<Id>, depth: nat)
    requires |v| == 2 && depth >= 1 && Distinct(v) && IsLinked(store, v, depth)
    ensures LinkPair(store, v[0], v[1]) == Linked(store, true)
  {
    hide SetLinks, IsLinked, Distinct;
    SetAgain(store, v, depth, 0);
    SetAgain(store, v, depth, 1);
    PairNeighbours(v, depth);
    SetSame(store, v[0]);
    SetSame(store, v[1]);
  }

  /** A linked frame that is given its neighbours again stays as it is. */
  lemma SetAgain(store: Store, v: seq<Id>, depth: nat, i: nat)
    requires i < |v| && Distinct(v) && IsLinked(store, v, depth)
    ensures v[i] in store
    ensures SetLinks(store[v[i]], v[i], (Before(v, i, depth), After(v, i, depth))) == store[v[i]]
  {
    hide SetLinks, WithLinks, Before, After, Distinct;
    SetNeighbours(store[v[i]], v, i, depth);
  }

  lemma SetSame(store: Store, id: Id)
    requires id in store
    ensures store[id := store[id]] == store
  {
  }

  /** With depth zero three or more fresh frames are refused at the first one. */
  lemma LinkVectorNeedsDepth(store: Store, v: seq<Id>)
    requires |v| >= 3 && AllValid(v) && Stored(store, v) && Fresh(store, v)
    ensures LinkVector(store, v, 0) == Linked(store, false)
  {
    hide GetLinks, SetLinks, AllValid;
    GetFresh(store[v[0]]);
    assert Before(v, 0, 0) == [] && After(v, 0, 0) == [];
  }

  // ----- what linked frames point to -----

  /** The lists of a linked frame, read back: as many identifiers on either side
      as the depth and the ends of the vector allow, in the order of the vector,
      right up to the frame. */
  lemma LinkedWindows(store: Store, v: seq<Id>, depth: nat, i: nat)
    requires i < |v| && AllValid(v) && IsLinked(store, v, depth)
    ensures v[i] in store && GetLinks(store[v[i]]).Ok?
    ensures var (back, fwd) := GetLinks(store[v[i]]).value;
      && |back| == (if i < depth then i else depth)
      && |fwd| == (if |v| - 1 - i < depth then |v| - 1 - i else depth)
      && (forall k :: 0 <= k < |back| ==> back[k] == v[i - |back| + k])
      && (forall k :: 0 <= k < |fwd| ==> fwd[k] == v[i + 1 + k])
  {
    hide GetLinks, ValidId, WithLinks, IsLinked, AllValid, Before, After;
    LinkedFrame(store, v, depth, i);
    GetNeighbours(store[v[i]], v, i, depth);
    Windows(v, i, depth);
  }

  lemma Windows(v: seq<Id>, i: nat, depth: nat)
    requires i < |v|
    ensures |Before(v, i, depth)| == (if i < depth then i else depth)
    ensures |After(v, i, depth)| == (if |v| - 1 - i < depth then |v| - 1 - i else depth)
    ensures forall k :: 0 <= k < |Before(v, i, depth)| ==> Before(v, i, depth)[k] == v[i - |Before(v, i, depth)| + k]
    ensures forall k :: 0 <= k < |After(v, i, depth)| ==> After(v, i, depth)[k] == v[i + 1 + k]
  {
  }

  lemma LinkedFrame(store: Store, v: seq<Id>, depth: nat, i: nat)
    requires i < |v| && IsLinked(store, v, depth)
    ensures v[i] in store && store[v[i]] == WithLinks(store[v[i]], v, i, depth)
  {
    hide Compact, Before, After;
  }

  // ----- when linking is refused -----

  /** One frame is linked exactly when it is stored with readable lists, and on
      either side the list it has ends (or begins) with its neighbour, or it has
      none there and the depth is at least one, or there is no neighbour at all. */
  lemma LinkOneOkExactly(store: Store, v: seq<Id>, depth: nat, i: nat)
    requires i < |v|
    ensures LinkOne(store, v, depth, i).ok <==>
      && v[i] in store && GetLinks(store[v[i]]).Ok?
      && (var (back, fwd) := GetLinks(store[v[i]]).value;
        && (if back == [] then i == 0 || depth >= 1 else i > 0 && back[|back| - 1] == v[i - 1])
        && (if fwd == [] then i == |v| - 1 || depth >= 1 else i < |v| - 1 && fwd[0] == v[i + 1]))
  {
    hide GetLinks, SetLinks;
  }

  /** Two frames are linked exactly when both are stored. */
  lemma PairLinksExactly(store: Store, a: Id, b: Id, depth: nat)
    requires ValidId(a) && ValidId(b)
    ensures LinkVector(store, [a, b], depth).ok <==> a in store && b in store
    ensures a !in store ==> LinkVector(store, [a, b], depth).store == store
  {
    hide ValidId, SetLinks, LinkFrom;
  }

  /** The time that a frame covers: its end wraps around after 64 bits, and such
      a frame covers no time at all. */
  lemma CoversExactly(f: FrameData, t: uint64)
    ensures f.Covers(t) <==>
      f.start <= t <= f.start + f.ttl && f.start + f.ttl < 0x1_0000_0000_0000_0000
    ensures f.End() == if f.start + f.ttl < 0x1_0000_0000_0000_0000 then f.start + f.ttl
      else f.start + f.ttl - 0x1_0000_0000_0000_0000
  {
  }

  /** One invalid identifier stops linking before anything is changed. */
  lemma LinkVectorRefusesInvalid(store: Store, v: seq<Id>, depth: nat, i: nat)
    requires i < |v| && !ValidId(v[i])
    ensures LinkVector(store, v, depth) == Linked(store, false)
  {
    hide ValidId, LinkFrom, LinkPair;
  }

  /** A frame keeps neither of its lists pointing at itself: reading them gives
      the lists without it. */
  lemma SetLinksDropsSelf(f: FrameData, self: Id, links: Links)
    requires AllValid(links.0) && AllValid(links.1)
    ensures GetLinks(SetLinks(f, self, links)).Ok?
    ensures var (back, fwd) := GetLinks(SetLinks(f, self, links)).value;
      && self !in back && self !in fwd
      && forall id :: id != self ==>
        multiset(back)[id] == multiset(links.0)[id] && multiset(fwd)[id] == multiset(links.1)[id]
  {
    hide Expand, Compact, ValidId;
    WithoutIsValid(links.0, self);
    WithoutIsValid(links.1, self);
    CompactRoundTrip(Without(links.0, self));
    CompactRoundTrip(Without(links.1, self));
    WithoutCounts(links.0, self, self);
    WithoutCounts(links.1, self, self);
    forall id: Id | id != self
      ensures multiset(Without(links.0, self))[id] == multiset(links.0)[id]
      ensures multiset(Without(links.1, self))[id] == multiset(links.1)[id]
    {
      WithoutCounts(links.0, self, id);
      WithoutCounts(links.1, self, id);
    }
    assert self !in multiset(Without(links.0, self)) && self !in multiset(Without(links.1, self));
  }

  lemma {:induction false} WithoutIsValid(ids: seq<Id>, id: Id)
    requires AllValid(ids)
    ensures AllValid(Without(ids, id))
  {
    hide ValidId;
    if ids != [] {
      WithoutIsValid(ids[1..], id);
    }
  }
}
