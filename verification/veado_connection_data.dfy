/** The Touch Portal plugin's per-connection cache of avatar states and
    their thumbnails. `VtState` and `VtThumbnail` are mutable objects
    compared by identity, so the cache is an explicit heap: states and
    thumbnails live in maps keyed by references, and the list, the id index,
    the current state and the two LRU tiers hold references. Weak and soft
    references are never cleared here: a state keeps its thumbnail until it
    is cleared explicitly. */
module VeadoConnectionData {
  import opened Wrappers
  import opened JvmNumbers
  import opened KotlinText
  import opened ResultMessages
  import opened LruMaps

  /** A `VtState` object. */
  type Ref = nat

  /** A `VtThumbnail` object. */
  type ThumbRef = nat

  /** Size of the tier of hard references. */
  const HARD_SIZE: nat := 5

  /** Size of the tier of soft references. */
  const SOFT_SIZE: nat := HARD_SIZE + 5

  /** `VtState`: an id, a name that is null until known, and the thumbnail
      object it holds. */
  datatype VtState = VtState(id: string, name: Option<string>, thumbnail: Option<ThumbRef>)

  /** `VtThumbnail`: the base64 PNG, its size, and the `hashCode` of the PNG
      text it was last set from. */
  datatype VtThumbnail = VtThumbnail(png: string, width: Int32, height: Int32, pngHash: Int32)

  /** `VeadoConnectionData` without its weak back-reference to the
      connection. `hard` and `soft` map a state to its thumbnail, least
      recently used first; `nextRef` and `nextThumb` allocate objects. */
  datatype Data = Data(
    states: map<Ref, VtState>,
    thumbs: map<ThumbRef, VtThumbnail>,
    statesAll: seq<Ref>,
    statesById: map<string, Ref>,
    current: Option<Ref>,
    currentThumbnail: Option<ThumbRef>,
    hard: Lru,
    soft: Lru,
    nextRef: nat,
    nextThumb: nat)

  /** A tier of the thumbnail cache: distinct states, at most `max` of them,
      each mapped to the thumbnail it holds. */
  predicate TierOk(states: map<Ref, VtState>, l: Lru, max: nat) {
    DistinctKeys(l) && |l| <= max &&
    forall e :: e in l ==> e.0 in states && states[e.0].thumbnail == Some(e.1)
  }

  /** References point at objects and the allocation counters are fresh. */
  predicate HeapOk(d: Data) {
    (forall r :: r in d.states ==> r < d.nextRef) &&
    (forall t :: t in d.thumbs ==> t < d.nextThumb) &&
    (forall r :: r in d.states && d.states[r].thumbnail.Some? ==> d.states[r].thumbnail.value in d.thumbs) &&
    (d.current.Some? ==> d.current.value in d.states) &&
    (d.currentThumbnail.Some? ==> d.currentThumbnail.value in d.thumbs)
  }

  /** Every `statesById` entry is a state stored under its own id. */
  predicate IndexOk(states: map<Ref, VtState>, byId: map<string, Ref>) {
    forall id :: id in byId ==> byId[id] in states && states[byId[id]].id == id
  }

  /** The state `r` is the one indexed under its id. */
  predicate Indexed(states: map<Ref, VtState>, byId: map<string, Ref>, r: Ref) {
    r in states && states[r].id in byId && byId[states[r].id] == r
  }

  /** Every listed state is the one indexed under its id. */
  predicate ListOk(states: map<Ref, VtState>, byId: map<string, Ref>, all: seq<Ref>) {
    forall i :: 0 <= i < |all| ==> Indexed(states, byId, all[i])
  }

  /** What every operation keeps. */
  predicate Inv(d: Data) {
    HeapOk(d) && IndexOk(d.states, d.statesById) && ListOk(d.states, d.statesById, d.statesAll) &&
    TierOk(d.states, d.hard, HARD_SIZE) && TierOk(d.states, d.soft, SOFT_SIZE)
  }

  /** The same states with the same ids. */
  predicate SameIds(a: map<Ref, VtState>, b: map<Ref, VtState>) {
    a.Keys == b.Keys && forall r :: r in a ==> b[r].id == a[r].id
  }

  lemma IdsKept(a: map<Ref, VtState>, b: map<Ref, VtState>, byId: map<string, Ref>, all: seq<Ref>)
    requires IndexOk(a, byId) && ListOk(a, byId, all) && SameIds(a, b)
    ensures IndexOk(b, byId) && ListOk(b, byId, all)
  {
    assert forall i :: 0 <= i < |all| ==> Indexed(a, byId, all[i]);
  }

  /** A tier whose entries come from a valid tier, their states still
      holding the same thumbnails, is valid. */
  lemma TierSub(a: map<Ref, VtState>, b: map<Ref, VtState>, l: Lru, l': Lru, max: nat)
    requires TierOk(a, l, max) && DistinctKeys(l') && |l'| <= |l|
    requires forall e :: e in l' ==> e in l && e.0 in b && b[e.0].thumbnail == a[e.0].thumbnail
    ensures TierOk(b, l', max)
  {
  }

  /** A new `VeadoConnectionData`: nothing cached. */
  function Initial(): (d: Data)
    ensures Inv(d)
    ensures d.statesAll == [] && d.statesById == map[] && d.current.None? && d.hard == [] && d.soft == []
  {
    Data(map[], map[], [], map[], None, None, [], [], 0, 0)
  }

  /** `getStateByID`. */
  function GetStateById(d: Data, id: string): (r: Option<Ref>)
    requires Inv(d)
    ensures r.Some? <==> id in d.statesById
    ensures r.Some? ==> r.value in d.states && d.states[r.value].id == id
  {
    if id in d.statesById then Some(d.statesById[id]) else None
  }

  /** `statesByID.getOrPut(id) { made }`: the indexed state, or `made`
      allocated and indexed. The flag says whether it was created. */
  function GetOrPut(d: Data, id: string, made: VtState): (r: (Data, Ref, bool))
    requires Inv(d) && made.id == id && made.thumbnail.None?
    ensures Inv(r.0)
    ensures id in r.0.statesById && r.0.statesById[id] == r.1 && r.1 in r.0.states && r.0.states[r.1].id == id
    ensures r.2 <==> id !in d.statesById
    ensures !r.2 ==> r.0 == d
    ensures r.2 ==> r.1 !in d.states && r.0.states == d.states[r.1 := made] && r.0.statesById == d.statesById[id := r.1]
    ensures r.0.statesAll == d.statesAll && r.0.thumbs == d.thumbs && r.0.current == d.current
    ensures r.0.currentThumbnail == d.currentThumbnail && r.0.hard == d.hard && r.0.soft == d.soft
    ensures r.0.nextThumb == d.nextThumb && d.nextRef <= r.0.nextRef
  {
    if id in d.statesById then (d, d.statesById[id], false)
    else
      var ref := d.nextRef;
      var d1 := d.(states := d.states[ref := made], statesById := d.statesById[id := ref], nextRef := ref + 1);
      Allocated(d, id, ref, made);
      (d1, ref, true)
  }

  lemma Allocated(d: Data, id: string, ref: Ref, made: VtState)
    requires Inv(d) && made.id == id && made.thumbnail.None? && id !in d.statesById && ref == d.nextRef
    ensures Inv(d.(states := d.states[ref := made], statesById := d.statesById[id := ref], nextRef := ref + 1))
  {
    var d1 := d.(states := d.states[ref := made], statesById := d.statesById[id := ref], nextRef := ref + 1);
    assert ref !in d.states;
    forall i | 0 <= i < |d.statesAll| ensures Indexed(d1.states, d1.statesById, d.statesAll[i]) {
      assert Indexed(d.states, d.statesById, d.statesAll[i]);
    }
    TierSub(d.states, d1.states, d.hard, d.hard, HARD_SIZE);
    TierSub(d.states, d1.states, d.soft, d.soft, SOFT_SIZE);
  }

  // ---------------------------------------------------------------------
  // VtState and VtThumbnail

  /** `VtState.update(State)`: the name is taken when the ids match and the
      new name is not blank. */
  function Rename(st: VtState, s: State): (r: (VtState, bool))
    ensures r.1 <==> s.id == st.id && !IsBlank(s.name)
    ensures r.0.id == st.id && r.0.thumbnail == st.thumbnail
    ensures r.0.name == (if r.1 then Some(s.name) else st.name)
  {
    if s.id == st.id && !IsBlank(s.name) then (st.(name := Some(s.name)), true) else (st, false)
  }

  /** The thumbnail a payload describes, as `VtThumbnail`'s constructor and
      its update store it. */
  function ThumbnailOf(p: ResultPayload): (t: VtThumbnail)
    requires p.Png?
    ensures t.png == p.png && t.width == p.width && t.height == p.height
    ensures t.pngHash == StringHash(p.png)
  {
    VtThumbnail(p.png, p.width, p.height, StringHash(p.png))
  }

  /** `VtState.updateThumbnail`, given the contents of the thumbnail the
      state holds: the new thumbnail when the payload is for this state, its
      PNG is not blank and its hash differs from the stored one (or nothing
      is stored); none otherwise. An existing thumbnail is updated through
      `VtThumbnail.updateThumbnail`, whose own test then always passes. */
  function StateThumbnailUpdate(st: VtState, stored: Option<VtThumbnail>, p: ResultPayload): (r: Option<VtThumbnail>)
    requires p.Png?
    ensures r.Some? <==> p.state == st.id && !IsBlank(p.png) && (stored.None? || stored.value.pngHash != StringHash(p.png))
    ensures r.Some? ==> r.value == ThumbnailOf(p)
  {
    if p.state != st.id then None
    else if !IsBlank(p.png) && (stored.None? || stored.value.pngHash != StringHash(p.png)) then
      match stored
      case None => Some(ThumbnailOf(p))
      case Some(thumb) => ThumbnailUpdate(thumb, p)
    else None
  }

  /** `VtThumbnail.updateThumbnail` on an initialised thumbnail. */
  function ThumbnailUpdate(t: VtThumbnail, p: ResultPayload): (r: Option<VtThumbnail>)
    requires p.Png?
    ensures r.Some? <==> !IsBlank(p.png) && t.pngHash != StringHash(p.png)
    ensures r.Some? ==> r.value == ThumbnailOf(p)
  {
    if !IsBlank(p.png) && t.pngHash != StringHash(p.png) then Some(ThumbnailOf(p)) else None
  }

  /** Updating a state's thumbnail twice with the same payload changes
      nothing the second time. */
  lemma StateThumbnailUpdateTwice(st: VtState, stored: Option<VtThumbnail>, p: ResultPayload)
    requires p.Png?
    ensures var r := StateThumbnailUpdate(st, stored, p);
      r.Some? ==> StateThumbnailUpdate(st, r, p).None?
  {
  }

  // ---------------------------------------------------------------------
  // updateStates

  /** Whether the state listed at index `i` has the id of the incoming
      state at index `i`. */
  predicate IndexMatch(d: Data, p: seq<State>, i: nat) {
    i < |d.statesAll| && i < |p| && d.statesAll[i] in d.states && d.states[d.statesAll[i]].id == p[i].id
  }

  /** Among the first `n` incoming states is one whose id was never
      indexed. */
  predicate Fresh(d: Data, p: seq<State>, n: nat) {
    exists j :: 0 <= j < n && j < |p| && p[j].id !in d.statesById
  }

  /** Some incoming id was never indexed: the only case in which the list
      is replaced. */
  predicate Replaces(d: Data, p: seq<State>) {
    Fresh(d, p, |p|)
  }

  /** The name the existing state `r` has after the first `n` incoming
      states: the last non-blank name among the index matches at which `r`
      is listed, else the name it had. */
  function NameAfter(d: Data, p: seq<State>, r: Ref, n: nat): Option<string>
    requires r in d.states && n <= |p|
  {
    if n == 0 then d.states[r].name
    else if IndexMatch(d, p, n - 1) && d.statesAll[n - 1] == r && !IsBlank(p[n - 1].name) then Some(p[n - 1].name)
    else NameAfter(d, p, r, n - 1)
  }

  /** A state created by the scan: made from the first incoming state with
      a never-indexed id, name included. */
  predicate Created(d: Data, p: seq<State>, n: nat, s: VtState) {
    exists j :: 0 <= j < n && j < |p| && p[j].id !in d.statesById && s == VtState(p[j].id, Some(p[j].name), None) &&
      forall k :: 0 <= k < j ==> p[k].id != p[j].id
  }

  /** What the scan leaves alone. */
  predicate Frame(d0: Data, d: Data) {
    d.statesAll == d0.statesAll && d.thumbs == d0.thumbs && d.current == d0.current &&
    d.currentThumbnail == d0.currentThumbnail && d.hard == d0.hard && d.soft == d0.soft &&
    d.nextThumb == d0.nextThumb && d0.nextRef <= d.nextRef
  }

  /** The index only grows, by incoming ids. */
  predicate IndexGrows(b0: map<string, Ref>, p: seq<State>, i: nat, b: map<string, Ref>) {
    (forall id :: id in b0 ==> id in b && b[id] == b0[id]) &&
    (forall id :: id in b && id !in b0 ==> exists j :: 0 <= j < i && j < |p| && p[j].id == id)
  }

  /** Existing states only change their names, as `NameAfter` says. */
  predicate Names(d0: Data, p: seq<State>, i: nat, states: map<Ref, VtState>) {
    i <= |p| &&
    forall r :: r in d0.states ==> r in states && states[r] == d0.states[r].(name := NameAfter(d0, p, r, i))
  }

  /** Every other state was created by the scan. */
  predicate News(d0: Data, p: seq<State>, i: nat, states: map<Ref, VtState>) {
    forall r :: r in states && r !in d0.states ==> Created(d0, p, i, states[r])
  }

  /** Each new list entry is the state indexed under the incoming id, and
      the listed one where the index matches. */
  predicate Listed(d0: Data, p: seq<State>, i: nat, byId: map<string, Ref>, nl: seq<Ref>) {
    |nl| == i && i <= |p| &&
    (forall j :: 0 <= j < i ==> p[j].id in byId && nl[j] == byId[p[j].id]) &&
    (forall j :: 0 <= j < i && IndexMatch(d0, p, j) ==> nl[j] == d0.statesAll[j])
  }

  /** The scan after `i` incoming states, against the data `d0` it started
      from, with the new list `nl` and the replacement flag `rep`. */
  ghost predicate Progress(d0: Data, p: seq<State>, i: nat, d: Data, nl: seq<Ref>, rep: bool) {
    Inv(d0) && Inv(d) && Frame(d0, d) && IndexGrows(d0.statesById, p, i, d.statesById) &&
    Names(d0, p, i, d.states) && News(d0, p, i, d.states) && Listed(d0, p, i, d.statesById, nl) &&
    (rep <==> Fresh(d0, p, i))
  }

  /** One iteration of the scan over the incoming states. */
  function ScanOne(p: seq<State>, i: nat, d: Data, nl: seq<Ref>, rep: bool): (Data, seq<Ref>, bool)
    requires Inv(d) && i < |p|
  {
    var s := p[i];
    if i < |d.statesAll| && d.states[d.statesAll[i]].id == s.id then
      var ref := d.statesAll[i];
      (d.(states := d.states[ref := Rename(d.states[ref], s).0]), nl + [ref], rep)
    else
      var (d1, ref, created) := GetOrPut(d, s.id, VtState(s.id, Some(s.name), None));
      (d1, nl + [ref], rep || created)
  }

  lemma ScanStep(d0: Data, p: seq<State>, i: nat, d: Data, nl: seq<Ref>, rep: bool)
    requires Progress(d0, p, i, d, nl, rep) && i < |p|
    ensures var next := ScanOne(p, i, d, nl, rep);
      Progress(d0, p, i + 1, next.0, next.1, next.2)
  {
    assert d.statesAll == d0.statesAll;
    if i < |d.statesAll| && d.states[d.statesAll[i]].id == p[i].id {
      var ref := d.statesAll[i];
      assert Indexed(d0.states, d0.statesById, ref);
      ScanMatch(d0, p, i, d, nl, rep, ref);
    } else {
      assert !IndexMatch(d0, p, i) by {
        if i < |d0.statesAll| {
          assert Indexed(d0.states, d0.statesById, d0.statesAll[i]);
        }
      }
      if p[i].id in d.statesById {
        ScanKnown(d0, p, i, d, nl, rep);
      } else {
        ScanCreate(d0, p, i, d, nl, rep);
      }
    }
  }

  lemma FreshStep(d0: Data, p: seq<State>, i: nat)
    requires i < |p|
    ensures Fresh(d0, p, i + 1) <==> Fresh(d0, p, i) || p[i].id !in d0.statesById
  {
    if Fresh(d0, p, i + 1) && !Fresh(d0, p, i) {
      var j :| 0 <= j < i + 1 && j < |p| && p[j].id !in d0.statesById;
      assert j == i;
    }
  }

  lemma GrowsStep(b0: map<string, Ref>, p: seq<State>, i: nat, b: map<string, Ref>, b': map<string, Ref>)
    requires IndexGrows(b0, p, i, b) && i < |p|
    requires forall id :: id in b ==> id in b' && b'[id] == b[id]
    requires forall id :: id in b' && id !in b ==> id == p[i].id
    ensures IndexGrows(b0, p, i + 1, b')
  {
    forall id | id in b' && id !in b0 ensures exists j :: 0 <= j < i + 1 && j < |p| && p[j].id == id {
      if id !in b {
        assert p[i].id == id;
      } else {
        var j :| 0 <= j < i && j < |p| && p[j].id == id;
      }
    }
  }

  lemma NamesKept(d0: Data, p: seq<State>, i: nat, states: map<Ref, VtState>, states': map<Ref, VtState>)
    requires Names(d0, p, i, states) && i < |p| && !IndexMatch(d0, p, i)
    requires forall r :: r in states ==> r in states' && states'[r] == states[r]
    ensures Names(d0, p, i + 1, states')
  {
  }

  lemma NamesMatch(d0: Data, p: seq<State>, i: nat, states: map<Ref, VtState>, ref: Ref)
    requires Names(d0, p, i, states) && IndexMatch(d0, p, i) && ref == d0.statesAll[i]
    ensures ref in states
    ensures Names(d0, p, i + 1, states[ref := Rename(states[ref], p[i]).0])
  {
  }

  lemma CreatedGrows(d0: Data, p: seq<State>, i: nat, s: VtState)
    requires Created(d0, p, i, s)
    ensures Created(d0, p, i + 1, s)
  {
    var j :| 0 <= j < i && j < |p| && p[j].id !in d0.statesById && s == VtState(p[j].id, Some(p[j].name), None) &&
      forall k :: 0 <= k < j ==> p[k].id != p[j].id;
  }

  lemma NewsKept(d0: Data, p: seq<State>, i: nat, states: map<Ref, VtState>, states': map<Ref, VtState>, made: Option<(Ref, VtState)>)
    requires News(d0, p, i, states)
    requires made.Some? ==> made.value.0 !in d0.states && Created(d0, p, i + 1, made.value.1)
    requires forall r :: r in states' ==>
      (r in states && (states'[r] == states[r] || r in d0.states)) || (made.Some? && r == made.value.0 && states'[r] == made.value.1)
    ensures News(d0, p, i + 1, states')
  {
    forall r | r in states' && r !in d0.states ensures Created(d0, p, i + 1, states'[r]) {
      if !(made.Some? && r == made.value.0) {
        CreatedGrows(d0, p, i, states[r]);
      }
    }
  }

  lemma ListedStep(d0: Data, p: seq<State>, i: nat, b: map<string, Ref>, b': map<string, Ref>, nl: seq<Ref>, x: Ref)
    requires Listed(d0, p, i, b, nl) && i < |p|
    requires p[i].id in b' && b'[p[i].id] == x && (IndexMatch(d0, p, i) ==> x == d0.statesAll[i])
    requires forall id :: id in b ==> id in b' && b'[id] == b[id]
    ensures Listed(d0, p, i + 1, b', nl + [x])
  {
  }

  /** The index matches: the listed state is reused and maybe renamed. */
  lemma ScanMatch(d0: Data, p: seq<State>, i: nat, d: Data, nl: seq<Ref>, rep: bool, ref: Ref)
    requires Progress(d0, p, i, d, nl, rep) && i < |p| && IndexMatch(d0, p, i) && ref == d0.statesAll[i]
    ensures ref in d.states
    ensures Progress(d0, p, i + 1, d.(states := d.states[ref := Rename(d.states[ref], p[i]).0]), nl + [ref], rep)
  {
    MatchData(d0, p, i, d, nl, rep, ref);
    MatchStates(d0, p, i, d, nl, rep, ref);
    MatchListed(d0, p, i, d, nl, rep, ref);
  }

  lemma MatchData(d0: Data, p: seq<State>, i: nat, d: Data, nl: seq<Ref>, rep: bool, ref: Ref)
    requires Progress(d0, p, i, d, nl, rep) && i < |p| && IndexMatch(d0, p, i) && ref == d0.statesAll[i]
    ensures ref in d.states
    ensures var d' := d.(states := d.states[ref := Rename(d.states[ref], p[i]).0]);
      Inv(d') && Frame(d0, d') && IndexGrows(d0.statesById, p, i + 1, d'.statesById)
  {
    assert Indexed(d.states, d.statesById, ref);
    RenameKeeps(d, ref, p[i]);
    GrowsStep(d0.statesById, p, i, d.statesById, d.statesById);
  }

  lemma MatchStates(d0: Data, p: seq<State>, i: nat, d: Data, nl: seq<Ref>, rep: bool, ref: Ref)
    requires Progress(d0, p, i, d, nl, rep) && i < |p| && IndexMatch(d0, p, i) && ref == d0.statesAll[i]
    ensures ref in d.states
    ensures var states := d.states[ref := Rename(d.states[ref], p[i]).0];
      Names(d0, p, i + 1, states) && News(d0, p, i + 1, states)
  {
    assert Indexed(d.states, d.statesById, ref);
    NamesMatch(d0, p, i, d.states, ref);
    NewsKept(d0, p, i, d.states, d.states[ref := Rename(d.states[ref], p[i]).0], None);
  }

  lemma MatchListed(d0: Data, p: seq<State>, i: nat, d: Data, nl: seq<Ref>, rep: bool, ref: Ref)
    requires Progress(d0, p, i, d, nl, rep) && i < |p| && IndexMatch(d0, p, i) && ref == d0.statesAll[i]
    ensures Listed(d0, p, i + 1, d.statesById, nl + [ref]) && (rep <==> Fresh(d0, p, i + 1))
  {
    assert Indexed(d.states, d.statesById, ref);
    ListedStep(d0, p, i, d.statesById, d.statesById, nl, ref);
    assert Indexed(d0.states, d0.statesById, ref);
    FreshStep(d0, p, i);
  }

  lemma RenameKeeps(d: Data, ref: Ref, s: State)
    requires Inv(d) && ref in d.states
    ensures Inv(d.(states := d.states[ref := Rename(d.states[ref], s).0]))
  {
    var d' := d.(states := d.states[ref := Rename(d.states[ref], s).0]);
    IdsKept(d.states, d'.states, d.statesById, d.statesAll);
    TierSub(d.states, d'.states, d.hard, d.hard, HARD_SIZE);
    TierSub(d.states, d'.states, d.soft, d.soft, SOFT_SIZE);
  }

  /** The id is indexed already: the indexed state is listed as it is. */
  lemma ScanKnown(d0: Data, p: seq<State>, i: nat, d: Data, nl: seq<Ref>, rep: bool)
    requires Progress(d0, p, i, d, nl, rep) && i < |p| && !IndexMatch(d0, p, i) && p[i].id in d.statesById
    ensures Progress(d0, p, i + 1, d, nl + [d.statesById[p[i].id]], rep)
  {
    GrowsStep(d0.statesById, p, i, d.statesById, d.statesById);
    NamesKept(d0, p, i, d.states, d.states);
    NewsKept(d0, p, i, d.states, d.states, None);
    ListedStep(d0, p, i, d.statesById, d.statesById, nl, d.statesById[p[i].id]);
    FreshStep(d0, p, i);
    if p[i].id !in d0.statesById {
      var j :| 0 <= j < i && j < |p| && p[j].id == p[i].id;
      assert Fresh(d0, p, i);
    }
  }

  /** A never-indexed id: a new state is created, indexed and listed, and
      the list will be replaced. */
  lemma ScanCreate(d0: Data, p: seq<State>, i: nat, d: Data, nl: seq<Ref>, rep: bool)
    requires Progress(d0, p, i, d, nl, rep) && i < |p| && !IndexMatch(d0, p, i) && p[i].id !in d.statesById
    ensures var (d', ref, _) := GetOrPut(d, p[i].id, VtState(p[i].id, Some(p[i].name), None));
      Progress(d0, p, i + 1, d', nl + [ref], true)
  {
    CreateStates(d0, p, i, d, nl, rep);
    CreateIndex(d0, p, i, d, nl, rep);
  }

  lemma CreateStates(d0: Data, p: seq<State>, i: nat, d: Data, nl: seq<Ref>, rep: bool)
    requires Progress(d0, p, i, d, nl, rep) && i < |p| && !IndexMatch(d0, p, i) && p[i].id !in d.statesById
    ensures var (d', ref, _) := GetOrPut(d, p[i].id, VtState(p[i].id, Some(p[i].name), None));
      Names(d0, p, i + 1, d'.states) && News(d0, p, i + 1, d'.states)
  {
    var made := VtState(p[i].id, Some(p[i].name), None);
    var (d', ref, created) := GetOrPut(d, p[i].id, made);
    assert p[i].id !in d0.statesById;
    assert ref !in d0.states;
    NamesKept(d0, p, i, d.states, d'.states);
    assert forall k :: 0 <= k < i ==> p[k].id != p[i].id;
    assert Created(d0, p, i + 1, made);
    NewsKept(d0, p, i, d.states, d'.states, Some((ref, made)));
  }

  lemma CreateIndex(d0: Data, p: seq<State>, i: nat, d: Data, nl: seq<Ref>, rep: bool)
    requires Progress(d0, p, i, d, nl, rep) && i < |p| && !IndexMatch(d0, p, i) && p[i].id !in d.statesById
    ensures var (d', ref, _) := GetOrPut(d, p[i].id, VtState(p[i].id, Some(p[i].name), None));
      Inv(d') && Frame(d0, d') && IndexGrows(d0.statesById, p, i + 1, d'.statesById) &&
      Listed(d0, p, i + 1, d'.statesById, nl + [ref]) && Fresh(d0, p, i + 1)
  {
    var (d', ref, created) := GetOrPut(d, p[i].id, VtState(p[i].id, Some(p[i].name), None));
    assert p[i].id !in d0.statesById;
    GrowsStep(d0.statesById, p, i, d.statesById, d'.statesById);
    ListedStep(d0, p, i, d.statesById, d'.statesById, nl, ref);
    FreshStep(d0, p, i);
  }

  /** The end of `updateStates`: when replacing, the new list is installed
      and the index and both tiers keep only what it lists. */
  function Finish(d: Data, nl: seq<Ref>, rep: bool): Data {
    if rep then
      var keep := set r | r in nl;
      d.(statesAll := nl,
         statesById := map id | id in d.statesById && d.statesById[id] in keep :: d.statesById[id],
         hard := Retain(d.hard, keep),
         soft := Retain(d.soft, keep))
    else d
  }

  lemma FinishInv(d0: Data, p: seq<State>, d: Data, nl: seq<Ref>)
    requires Progress(d0, p, |p|, d, nl, true)
    ensures Inv(Finish(d, nl, true))
    ensures forall id :: id in Finish(d, nl, true).statesById <==> exists i :: 0 <= i < |p| && p[i].id == id
  {
    var r := Finish(d, nl, true);
    var keep := set x | x in nl;
    RetainDistinct(d.hard, keep);
    RetainDistinct(d.soft, keep);
    TierSub(d.states, r.states, d.hard, r.hard, HARD_SIZE);
    TierSub(d.states, r.states, d.soft, r.soft, SOFT_SIZE);
    forall i | 0 <= i < |nl| ensures Indexed(r.states, r.statesById, nl[i]) {
      assert nl[i] == d.statesById[p[i].id];
      assert nl[i] in keep;
    }
    forall id | id in r.statesById ensures exists i :: 0 <= i < |p| && p[i].id == id {
      var i :| 0 <= i < |nl| && nl[i] == d.statesById[id];
      assert d.statesById[p[i].id] == nl[i];
    }
    forall id | exists i :: 0 <= i < |p| && p[i].id == id ensures id in r.statesById {
      var i :| 0 <= i < |p| && p[i].id == id;
      assert nl[i] in keep;
    }
  }

  /** What `updateStates` leaves once the scan is over. */
  lemma FinishSpec(d0: Data, p: seq<State>, d: Data, nl: seq<Ref>, rep: bool)
    requires Progress(d0, p, |p|, d, nl, rep)
    ensures var r := Finish(d, nl, rep);
      Inv(r) && r.thumbs == d0.thumbs && r.current == d0.current && r.currentThumbnail == d0.currentThumbnail &&
      Names(d0, p, |p|, r.states) && News(d0, p, |p|, r.states) &&
      (!Replaces(d0, p) ==>
        r.statesAll == d0.statesAll && r.statesById == d0.statesById && r.hard == d0.hard && r.soft == d0.soft &&
        r.states.Keys == d0.states.Keys) &&
      (Replaces(d0, p) ==>
        |r.statesAll| == |p| &&
        (forall i :: 0 <= i < |p| ==> r.states[r.statesAll[i]].id == p[i].id) &&
        (forall i :: 0 <= i < |p| && IndexMatch(d0, p, i) ==> r.statesAll[i] == d0.statesAll[i]) &&
        (forall id :: id in r.statesById <==> exists i :: 0 <= i < |p| && p[i].id == id) &&
        (forall e :: e in r.hard <==> e in d0.hard && e.0 in r.statesAll) &&
        (forall e :: e in r.soft <==> e in d0.soft && e.0 in r.statesAll))
  {
    if rep {
      FinishReplaced(d0, p, d, nl);
    } else {
      FinishKept(d0, p, d, nl);
    }
  }

  lemma FinishReplaced(d0: Data, p: seq<State>, d: Data, nl: seq<Ref>)
    requires Progress(d0, p, |p|, d, nl, true)
    ensures var r := Finish(d, nl, true);
      Inv(r) && r.states == d.states && r.statesAll == nl && |nl| == |p| &&
      (forall i :: 0 <= i < |p| ==> r.states[r.statesAll[i]].id == p[i].id) &&
      (forall i :: 0 <= i < |p| && IndexMatch(d0, p, i) ==> r.statesAll[i] == d0.statesAll[i]) &&
      (forall id :: id in r.statesById <==> exists i :: 0 <= i < |p| && p[i].id == id) &&
      (forall e :: e in r.hard <==> e in d0.hard && e.0 in r.statesAll) &&
      (forall e :: e in r.soft <==> e in d0.soft && e.0 in r.statesAll)
  {
    var r := Finish(d, nl, true);
    FinishInv(d0, p, d, nl);
    forall i | 0 <= i < |p| ensures r.states[r.statesAll[i]].id == p[i].id {
      assert nl[i] == d.statesById[p[i].id];
    }
  }

  lemma FinishKept(d0: Data, p: seq<State>, d: Data, nl: seq<Ref>)
    requires Progress(d0, p, |p|, d, nl, false)
    ensures d.statesAll == d0.statesAll && d.statesById == d0.statesById && d.hard == d0.hard && d.soft == d0.soft
    ensures d.states.Keys == d0.states.Keys
  {
    assert forall ref :: ref in d.states ==> ref in d0.states;
    assert forall id :: id in d.statesById ==> id in d0.statesById;
  }

  /** `updateStates`: the incoming list is reconciled with the listed
      states index by index, then through the id index. Only a never-indexed
      id replaces the list: reordering or dropping known ids leaves the
      list, the index and the tiers as they were. A replacement lists the
      incoming ids in order, reusing the listed state wherever the index
      matches, and drops from the index and the tiers every state it does
      not list. Index matches with a non-blank name rename the state;
      created states take the name of the first incoming state with their
      id. */
  method UpdateStates(d: Data, payload: ResultPayload) returns (r: Data)
    requires Inv(d) && payload.StateList?
    ensures Inv(r)
    ensures r.thumbs == d.thumbs && r.current == d.current && r.currentThumbnail == d.currentThumbnail
    ensures forall ref :: ref in d.states ==>
      ref in r.states && r.states[ref] == d.states[ref].(name := NameAfter(d, payload.states, ref, |payload.states|))
    ensures forall ref :: ref in r.states && ref !in d.states ==> Created(d, payload.states, |payload.states|, r.states[ref])
    ensures !Replaces(d, payload.states) ==>
      r.statesAll == d.statesAll && r.statesById == d.statesById && r.hard == d.hard && r.soft == d.soft &&
      r.states.Keys == d.states.Keys
    ensures Replaces(d, payload.states) ==>
      |r.statesAll| == |payload.states| &&
      (forall i :: 0 <= i < |payload.states| ==> r.states[r.statesAll[i]].id == payload.states[i].id) &&
      (forall i :: 0 <= i < |payload.states| && IndexMatch(d, payload.states, i) ==> r.statesAll[i] == d.statesAll[i])
    ensures Replaces(d, payload.states) ==>
      (forall id :: id in r.statesById <==> exists i :: 0 <= i < |payload.states| && payload.states[i].id == id) &&
      (forall e :: e in r.hard <==> e in d.hard && e.0 in r.statesAll) &&
      (forall e :: e in r.soft <==> e in d.soft && e.0 in r.statesAll)
  {
    var cur, nl, rep := Scan(d, payload.states);
    FinishPost(d, payload.states, cur, nl, rep);
    r := Finish(cur, nl, rep);
  }

  /** The loop over the incoming states: the store after every one of them
      has been matched, reused or created, before the index is replaced. */
  method Scan(d: Data, p: seq<State>) returns (cur: Data, nl: seq<Ref>, rep: bool)
    requires Inv(d)
    ensures Progress(d, p, |p|, cur, nl, rep)
  {
    cur, nl, rep := d, [], false;
    ScanStart(d, p);
    var i := 0;
    while i < |p|
      invariant i <= |p| && Progress(d, p, i, cur, nl, rep)
    {
      var next := ScanOne(p, i, cur, nl, rep);
      ScanStep(d, p, i, cur, nl, rep);
      cur, nl, rep := next.0, next.1, next.2;
      i := i + 1;
    }
  }

  /** Before the first incoming state, nothing has changed. */
  lemma ScanStart(d: Data, p: seq<State>)
    requires Inv(d)
    ensures Progress(d, p, 0, d, [], false)
  {
  }

  /** The end of the scan, in the terms `UpdateStates` promises. */
  lemma FinishPost(d0: Data, p: seq<State>, d: Data, nl: seq<Ref>, rep: bool)
    requires Progress(d0, p, |p|, d, nl, rep)
    ensures var r := Finish(d, nl, rep);
      Inv(r) && r.thumbs == d0.thumbs && r.current == d0.current && r.currentThumbnail == d0.currentThumbnail &&
      (forall ref :: ref in d0.states ==>
        ref in r.states && r.states[ref] == d0.states[ref].(name := NameAfter(d0, p, ref, |p|))) &&
      (forall ref :: ref in r.states && ref !in d0.states ==> Created(d0, p, |p|, r.states[ref]))
    ensures var r := Finish(d, nl, rep);
      (!Replaces(d0, p) ==>
        r.statesAll == d0.statesAll && r.statesById == d0.statesById && r.hard == d0.hard && r.soft == d0.soft &&
        r.states.Keys == d0.states.Keys) &&
      (Replaces(d0, p) ==>
        |r.statesAll| == |p| &&
        (forall i :: 0 <= i < |p| ==> r.states[r.statesAll[i]].id == p[i].id) &&
        (forall i :: 0 <= i < |p| && IndexMatch(d0, p, i) ==> r.statesAll[i] == d0.statesAll[i]) &&
        (forall id :: id in r.statesById <==> exists i :: 0 <= i < |p| && p[i].id == id) &&
        (forall e :: e in r.hard <==> e in d0.hard && e.0 in r.statesAll) &&
        (forall e :: e in r.soft <==> e in d0.soft && e.0 in r.statesAll))
  {
    FinishSpec(d0, p, d, nl, rep);
  }

  // ---------------------------------------------------------------------
  // updateCurrentState

  /** `updateCurrentState`: nothing happens when the current state already
      has the peeked id; otherwise the current state becomes the one indexed
      under that id, created without a name when there is none. */
  function UpdateCurrentState(d: Data, peek: ResultPayload): (r: (Data, bool))
    requires Inv(d) && peek.CurrentState?
    ensures Inv(r.0)
    ensures r.1 <==> !(d.current.Some? && d.states[d.current.value].id == peek.state)
    ensures !r.1 ==> r.0 == d
    ensures r.1 ==> peek.state in r.0.statesById && r.0.current == Some(r.0.statesById[peek.state])
    ensures r.1 && peek.state in d.statesById ==> r.0 == d.(current := Some(d.statesById[peek.state]))
    ensures r.1 && peek.state !in d.statesById ==>
      r.0.states[r.0.statesById[peek.state]] == VtState(peek.state, None, None) && r.0.statesAll == d.statesAll
    ensures r.1 && peek.state !in d.statesById ==>
      r.0.statesById[peek.state] !in d.states &&
      r.0.statesById == d.statesById[peek.state := r.0.statesById[peek.state]] &&
      (forall x :: x in d.states ==> x in r.0.states && r.0.states[x] == d.states[x])
    ensures r.1 && peek.state !in d.statesById ==>
      r.0.hard == d.hard && r.0.soft == d.soft && r.0.thumbs == d.thumbs && r.0.currentThumbnail == d.currentThumbnail
  {
    if d.current.Some? && d.states[d.current.value].id == peek.state then (d, false)
    else
      var (d1, ref, _) := GetOrPut(d, peek.state, VtState(peek.state, None, None));
      (d1.(current := Some(ref)), true)
  }

  /** Peeking the same state twice: the second call reports no change. */
  lemma UpdateCurrentStateTwice(d: Data, peek: ResultPayload)
    requires Inv(d) && peek.CurrentState?
    ensures var r := UpdateCurrentState(d, peek);
      UpdateCurrentState(r.0, peek) == (r.0, false)
  {
  }

  // ---------------------------------------------------------------------
  // Thumbnails

  /** The hash of the thumbnail held by the state indexed under `id`. */
  function StoredHash(d: Data, id: string): (h: Option<Int32>)
    requires Inv(d)
    ensures h.Some? ==> id in d.statesById && d.states[d.statesById[id]].thumbnail.Some?
  {
    if id in d.statesById && d.states[d.statesById[id]].thumbnail.Some? then
      Some(d.thumbs[d.states[d.statesById[id]].thumbnail.value].pngHash)
    else None
  }

  /** One tier after a real thumbnail update of state `k` to thumbnail `t`:
      `get(k, updateToMRU)`, then a `put` when the state was absent and
      `updateToMRU` is set, or the tier is not full. A full tier thus takes
      a new state only when asked to, evicting its least recently used
      entry; a state already present stays. */
  function TierUpdate(l: Lru, k: Ref, t: ThumbRef, mru: bool, max: nat): (r: Lru)
    requires max > 0 && DistinctKeys(l) && |l| <= max
    ensures DistinctKeys(r) && |r| <= max
    ensures k in Keys(r) <==> k in Keys(l) || mru || !IsFull(l, max)
    ensures forall e :: e in l && e.0 != k ==> (e in r <==> !(k !in Keys(l) && mru && IsFull(l, max) && e == l[0]))
    ensures forall e :: e in r ==> e in l || e == (k, t)
    ensures (k !in Keys(l) && mru) || !IsFull(l, max) ==> r[|r| - 1] == (k, t)
    ensures k in Keys(l) && IsFull(l, max) ==> forall e :: e in r <==> e in l
  {
    var (got, moved) := Get(l, k, mru);
    GetKeepsEntries(l, k, mru);
    if (got.None? && mru) || !IsFull(moved, max) then
      PutSpec(moved, k, t, max);
      TierPut(l, moved, k, t, mru, max);
      Put(moved, k, t, max)
    else moved
  }

  lemma TierPut(l: Lru, moved: Lru, k: Ref, t: ThumbRef, mru: bool, max: nat)
    requires max > 0 && DistinctKeys(l) && |l| <= max
    requires moved == Get(l, k, mru).1 && DistinctKeys(moved) && |moved| == |l|
    requires forall e :: e in moved <==> e in l
    requires (k !in Keys(l) && mru) || !IsFull(l, max)
    ensures var r := Put(moved, k, t, max);
      (forall e :: e in l && e.0 != k ==> (e in r <==> !(k !in Keys(l) && mru && IsFull(l, max) && e == l[0]))) &&
      (forall e :: e in r ==> e in l || e == (k, t))
  {
    var r := Put(moved, k, t, max);
    if k !in Keys(l) {
      assert moved == l;
      forall e | e in l && e.0 != k ensures e in r <==> !(mru && IsFull(l, max) && e == l[0]) {
        PutKeeps(l, k, t, max, e);
      }
      forall e | e in r ensures e in l || e == (k, t) {
        if IsFull(l, max) {
          if e != (k, t) {
            var j :| 0 <= j < |r| && r[j] == e;
            assert e == l[j + 1];
          }
        }
      }
    } else {
      assert k in Keys(moved) by {
        var j :| 0 <= j < |l| && Keys(l)[j] == k;
        assert l[j] in moved;
      }
    }
  }

  /** `updateStateThumbnail`: the state indexed under the payload's id,
      created when missing, gets the payload's thumbnail when its PNG is
      not blank and its hash differs from the stored one; the thumbnail
      object it holds is updated in place, or a new one is made. A real
      update pins the thumbnail when the state is current and feeds both
      tiers; otherwise nothing but the created state changes. */
  function UpdateStateThumbnail(d: Data, payload: ResultPayload, updateToMru: bool): (r: (Data, bool))
    requires Inv(d) && payload.Png?
    ensures Inv(r.0)
    ensures payload.state in r.0.statesById
    ensures payload.state in d.statesById ==> r.0.statesById == d.statesById
    ensures r.1 <==> !IsBlank(payload.png) && StoredHash(d, payload.state) != Some(StringHash(payload.png))
    ensures r.0.statesAll == d.statesAll && r.0.current == d.current
    ensures var s := r.0.statesById[payload.state];
      (r.1 ==> r.0.states[s].thumbnail.Some? && r.0.thumbs[r.0.states[s].thumbnail.value] == ThumbnailOf(payload)) &&
      (r.1 && s in d.states && d.states[s].thumbnail.Some? ==> r.0.states[s].thumbnail == d.states[s].thumbnail) &&
      (r.1 && d.current == Some(s) ==> r.0.currentThumbnail == r.0.states[s].thumbnail) &&
      (r.1 ==> r.0.hard == TierUpdate(d.hard, s, r.0.states[s].thumbnail.value, updateToMru, HARD_SIZE)) &&
      (r.1 ==> r.0.soft == TierUpdate(d.soft, s, r.0.states[s].thumbnail.value, updateToMru, SOFT_SIZE)) &&
      (forall x :: x in d.states && x != s ==> x in r.0.states && r.0.states[x] == d.states[x])
    ensures !r.1 ==> r.0.thumbs == d.thumbs && r.0.hard == d.hard && r.0.soft == d.soft && r.0.currentThumbnail == d.currentThumbnail
    ensures !(r.1 && d.current == Some(r.0.statesById[payload.state])) ==> r.0.currentThumbnail == d.currentThumbnail
  {
    var (d1, s, _) := GetOrPut(d, payload.state, VtState(payload.state, None, None));
    var st := d1.states[s];
    var stored := if st.thumbnail.Some? then Some(d1.thumbs[st.thumbnail.value]) else None;
    match StateThumbnailUpdate(st, stored, payload)
    case None => (d1, false)
    case Some(thumb) => (ApplyThumbnail(d1, s, thumb, updateToMru), true)
  }

  /** A real thumbnail update of state `s`, with the state and its
      thumbnail already decided. */
  function ApplyThumbnail(d: Data, s: Ref, thumb: VtThumbnail, mru: bool): (r: Data)
    requires Inv(d) && s in d.states
    ensures Inv(r)
    ensures r.states.Keys == d.states.Keys && r.statesAll == d.statesAll && r.statesById == d.statesById && r.current == d.current
    ensures r.states[s].thumbnail.Some? && r.thumbs[r.states[s].thumbnail.value] == thumb
    ensures r.states[s].id == d.states[s].id
    ensures d.states[s].thumbnail.Some? ==> r.states[s].thumbnail == d.states[s].thumbnail
    ensures forall x :: x in d.states && x != s ==> r.states[x] == d.states[x]
    ensures r.currentThumbnail == if d.current == Some(s) then r.states[s].thumbnail else d.currentThumbnail
    ensures r.hard == TierUpdate(d.hard, s, r.states[s].thumbnail.value, mru, HARD_SIZE)
    ensures r.soft == TierUpdate(d.soft, s, r.states[s].thumbnail.value, mru, SOFT_SIZE)
  {
    var (d1, t) := StoreThumbnail(d, s, thumb);
    var pinned := if d1.current == Some(s) then Some(t) else d1.currentThumbnail;
    var r := d1.(currentThumbnail := pinned,
                 hard := TierUpdate(d1.hard, s, t, mru, HARD_SIZE),
                 soft := TierUpdate(d1.soft, s, t, mru, SOFT_SIZE));
    TierFollows(d1.states, d1.hard, s, t, mru, HARD_SIZE);
    TierFollows(d1.states, d1.soft, s, t, mru, SOFT_SIZE);
    r
  }

  /** The state's thumbnail object takes the new contents: the one it holds
      is updated in place, or a new one is allocated. */
  function StoreThumbnail(d: Data, s: Ref, thumb: VtThumbnail): (r: (Data, ThumbRef))
    requires Inv(d) && s in d.states
    ensures Inv(r.0) && s in r.0.states && r.0.states[s].thumbnail == Some(r.1) && r.0.thumbs[r.1] == thumb
    ensures r.0.states.Keys == d.states.Keys && r.0.states[s].id == d.states[s].id
    ensures d.states[s].thumbnail.Some? ==> r.1 == d.states[s].thumbnail.value
    ensures forall x :: x in d.states && x != s ==> r.0.states[x] == d.states[x]
    ensures r.0.statesAll == d.statesAll && r.0.statesById == d.statesById && r.0.current == d.current
    ensures r.0.currentThumbnail == d.currentThumbnail && r.0.hard == d.hard && r.0.soft == d.soft
  {
    match d.states[s].thumbnail
    case Some(t) =>
      (d.(thumbs := d.thumbs[t := thumb]), t)
    case None =>
      var t := d.nextThumb;
      var r := d.(thumbs := d.thumbs[t := thumb], states := d.states[s := d.states[s].(thumbnail := Some(t))], nextThumb := t + 1);
      Attached(d, s, t, thumb);
      (r, t)
  }

  lemma Attached(d: Data, s: Ref, t: ThumbRef, thumb: VtThumbnail)
    requires Inv(d) && s in d.states && d.states[s].thumbnail.None? && t == d.nextThumb
    ensures Inv(d.(thumbs := d.thumbs[t := thumb], states := d.states[s := d.states[s].(thumbnail := Some(t))], nextThumb := t + 1))
  {
    var r := d.(thumbs := d.thumbs[t := thumb], states := d.states[s := d.states[s].(thumbnail := Some(t))], nextThumb := t + 1);
    IdsKept(d.states, r.states, d.statesById, d.statesAll);
    TierSub(d.states, r.states, d.hard, d.hard, HARD_SIZE);
    TierSub(d.states, r.states, d.soft, d.soft, SOFT_SIZE);
  }

  /** A tier fed with the state's own thumbnail keeps following the states. */
  lemma TierFollows(states: map<Ref, VtState>, l: Lru, s: Ref, t: ThumbRef, mru: bool, max: nat)
    requires TierOk(states, l, max) && max > 0 && s in states && states[s].thumbnail == Some(t)
    ensures TierOk(states, TierUpdate(l, s, t, mru, max), max)
  {
  }

  /** Feeding the same thumbnail twice: the second call reports no change
      and changes nothing. */
  lemma UpdateStateThumbnailTwice(d: Data, payload: ResultPayload, updateToMru: bool)
    requires Inv(d) && payload.Png?
    ensures var r := UpdateStateThumbnail(d, payload, updateToMru);
      UpdateStateThumbnail(r.0, payload, updateToMru) == (r.0, false)
  {
    var r := UpdateStateThumbnail(d, payload, updateToMru);
    var s := r.0.statesById[payload.state];
    if r.1 {
      assert StoredHash(r.0, payload.state) == Some(StringHash(payload.png));
    } else if !IsBlank(payload.png) {
      assert StoredHash(r.0, payload.state) == StoredHash(d, payload.state);
    }
  }

  /** `clearedStateThumbnail`: the state drops its thumbnail and leaves both
      tiers, and the pinned thumbnail is released when the state is the
      current one. */
  function ClearedStateThumbnail(d: Data, s: Ref): (r: Data)
    requires Inv(d) && s in d.states
    ensures Inv(r)
    ensures s in r.states && r.states[s] == d.states[s].(thumbnail := None)
    ensures forall x :: x in d.states && x != s ==> x in r.states && r.states[x] == d.states[x]
    ensures s !in Keys(r.hard) && s !in Keys(r.soft)
    ensures forall e :: e in r.hard <==> e in d.hard && e.0 != s
    ensures forall e :: e in r.soft <==> e in d.soft && e.0 != s
    ensures r.currentThumbnail == if d.current == Some(s) then None else d.currentThumbnail
    ensures r.statesAll == d.statesAll && r.statesById == d.statesById && r.current == d.current && r.thumbs == d.thumbs
  {
    Cleared(d, s);
    d.(states := d.states[s := d.states[s].(thumbnail := None)],
       currentThumbnail := if d.current == Some(s) then None else d.currentThumbnail,
       hard := Remove(d.hard, s),
       soft := Remove(d.soft, s))
  }

  lemma Cleared(d: Data, s: Ref)
    requires Inv(d) && s in d.states
    ensures Inv(d.(states := d.states[s := d.states[s].(thumbnail := None)],
                   currentThumbnail := if d.current == Some(s) then None else d.currentThumbnail,
                   hard := Remove(d.hard, s),
                   soft := Remove(d.soft, s)))
  {
    ClearedHeap(d, s);
    ClearedIds(d, s);
    ClearedTiers(d, s);
  }

  lemma ClearedIds(d: Data, s: Ref)
    requires Inv(d) && s in d.states
    ensures var states := d.states[s := d.states[s].(thumbnail := None)];
      IndexOk(states, d.statesById) && ListOk(states, d.statesById, d.statesAll)
  {
    IdsKept(d.states, d.states[s := d.states[s].(thumbnail := None)], d.statesById, d.statesAll);
  }

  lemma ClearedTiers(d: Data, s: Ref)
    requires Inv(d) && s in d.states
    ensures var states := d.states[s := d.states[s].(thumbnail := None)];
      TierOk(states, Remove(d.hard, s), HARD_SIZE) && TierOk(states, Remove(d.soft, s), SOFT_SIZE)
  {
    TierCleared(d.states, d.hard, s, HARD_SIZE);
    TierCleared(d.states, d.soft, s, SOFT_SIZE);
  }

  lemma ClearedHeap(d: Data, s: Ref)
    requires Inv(d) && s in d.states
    ensures HeapOk(d.(states := d.states[s := d.states[s].(thumbnail := None)],
                      currentThumbnail := if d.current == Some(s) then None else d.currentThumbnail,
                      hard := Remove(d.hard, s),
                      soft := Remove(d.soft, s)))
  {
  }

  lemma TierCleared(states: map<Ref, VtState>, l: Lru, s: Ref, max: nat)
    requires TierOk(states, l, max) && s in states
    ensures TierOk(states[s := states[s].(thumbnail := None)], Remove(l, s), max)
  {
    RemoveDistinct(l, s);
    TierSub(states, states[s := states[s].(thumbnail := None)], l, Remove(l, s), max);
  }

  /** Clearing is idempotent. */
  lemma ClearedTwice(d: Data, s: Ref)
    requires Inv(d) && s in d.states
    ensures ClearedStateThumbnail(ClearedStateThumbnail(d, s), s) == ClearedStateThumbnail(d, s)
  {
    var r := ClearedStateThumbnail(d, s);
    RemoveDistinct(r.hard, s);
    RemoveDistinct(r.soft, s);
  }

  /** After clearing, the state no longer remembers the hash: the same
      non-blank thumbnail is taken again. */
  lemma ClearedThenUpdated(d: Data, s: Ref, payload: ResultPayload, updateToMru: bool)
    requires Inv(d) && s in d.states && payload.Png? && payload.state == d.states[s].id
    requires Indexed(d.states, d.statesById, s) && !IsBlank(payload.png)
    ensures UpdateStateThumbnail(ClearedStateThumbnail(d, s), payload, updateToMru).1
  {
  }
}
