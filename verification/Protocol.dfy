/**
 * The cross-language iterator protocol under every interleaving of contract calls.
 *
 * A call starts, scans, asks for next records, and ends. Each access to the shared Go tables is
 * one atomic step; the use of a retrieved iterator and each close in the final loop are steps
 * of their own. Rust's table of iterator references is local to the call.
 */
module Protocol {
  import opened ByteStrings
  import opened Ranges
  import opened IteratorFrames

  const TWO_TO_32 := 0x1_0000_0000

  datatype IteratorReference = IteratorReference(callId: u64, iteratorId: u64)

  /** next, next_key and next_value. */
  datatype Kind = Record | KeyOnly | ValueOnly

  datatype Answer =
    | Scanned(rustId: nat)
    | ScanFailed           // the store panicked: no iterator came into being
    | StoreFailed          // storeIterator gave no ID
    | LimitHit
    | CountOverflow        // the u32 `expect` in GoStorage::scan
    | NoIterator(rustId: nat)
    | BadArgument(rustId: nat)
    | NotRetrieved(rustId: nat)
    | Delivered(rustId: nat, kind: Kind, shown: Option<Shown>)
    | Panicked(rustId: nat)

  /** The part of a record that an answer carries. */
  datatype Shown = ShownRecord(item: Item) | ShownKey(key: Bytes) | ShownValue(value: Bytes)

  function Project(kind: Kind, item: Item): (r: Shown) {
    match kind
    case Record => ShownRecord(item)
    case KeyOnly => ShownKey(item.key)
    case ValueOnly => ShownValue(item.value)
  }

  /** How the calls into a retrieved iterator go: a panic leaves it before or after its Next. */
  datatype Fate = Runs | PanicsBefore | PanicsAfter

  datatype Phase =
    | Idle
    | Holding(handle: nat, rustId: nat, kind: Kind)
    | Closing(frame: seq<nat>, next: nat)
    | Ended(closed: nat)

  /** One contract call. `log` is what the contract observes; `accepted` is history. */
  datatype Call = Call(
    id: u64, rust: map<nat, IteratorReference>, phase: Phase, log: seq<Answer>, accepted: seq<nat>)

  /** `home` and `owner` are history: where a handle was stored, and who was given a call ID. */
  datatype State = State(
    tables: Tables, calls: map<nat, Call>, home: map<nat, (nat, nat)>, owner: map<u64, nat>)

  const Init := State(Tables(0, map[], []), map[], map[], map[])

  /** `call` numbers the contract calls; their call IDs are handed out by the machine. */
  datatype Event =
    | Start(call: nat)
    | Scan(call: nat, items: Option<seq<Item>>)
    | Lookup(call: nat, rustId: nat, kind: Kind)
    | Use(call: nat, fate: Fate)
    | Remove(call: nat)
    | CloseNext(call: nat)
    | Finish(call: nat)
    | Unwind(call: nat)   // the Close just called panics out of endCall

  function ScanStep(s: State, a: nat, items: Option<seq<Item>>): (r: State)
    requires a in s.calls
  {
    var c := s.calls[a];
    if items.None? then s.(calls := s.calls[a := c.(log := c.log + [ScanFailed])])
    else
      var h := |s.tables.iterators|;
      var (t, stored) := s.tables.Create(items.value).Store(c.id, h, FRAME_LEN_LIMIT);
      match stored
      case LimitReached => s.(tables := t, calls := s.calls[a := c.(log := c.log + [LimitHit])])
      case NoSuchId => s.(tables := t, calls := s.calls[a := c.(log := c.log + [StoreFailed])])
      case Stored(iteratorId) =>
        var nextId := |c.rust|;
        if nextId >= TWO_TO_32 then s.(tables := t, calls := s.calls[a := c.(log := c.log + [CountOverflow])])
        else
          s.(tables := t, home := s.home[h := (a, |c.accepted|)],
             calls := s.calls[a := c.(rust := c.rust[nextId := IteratorReference(c.id, iteratorId)],
                                      accepted := c.accepted + [h],
                                      log := c.log + [Scanned(nextId)])])
  }

  function LookupStep(t: Tables, c: Call, rustId: nat, kind: Kind): (r: Call) {
    if rustId !in c.rust then c.(log := c.log + [NoIterator(rustId)])
    else
      var ref := c.rust[rustId];
      if ref.callId == 0 then c.(log := c.log + [BadArgument(rustId)])
      else match t.Retrieve(ref.callId, ref.iteratorId)
        case None => c.(log := c.log + [NotRetrieved(rustId)])
        case Some(h) => c.(phase := Holding(h, rustId, kind))
  }

  function UseStep(s: State, a: nat, fate: Fate): (r: State)
    requires a in s.calls && s.calls[a].phase.Holding? && s.calls[a].phase.handle < |s.tables.iterators|
  {
    var c := s.calls[a];
    var Holding(h, rustId, kind) := c.phase;
    var it := s.tables.iterators[h];
    if !it.Valid() then
      s.(calls := s.calls[a := c.(phase := Idle, log := c.log + [Delivered(rustId, kind, None)])])
    else match fate
      case Runs =>
        s.(tables := s.tables.Advance(h),
           calls := s.calls[a := c.(phase := Idle,
                                    log := c.log + [Delivered(rustId, kind, Some(Project(kind, it.rest[0])))])])
      case PanicsBefore =>
        s.(calls := s.calls[a := c.(phase := Idle, log := c.log + [Panicked(rustId)])])
      case PanicsAfter =>
        s.(tables := s.tables.Advance(h),
           calls := s.calls[a := c.(phase := Idle, log := c.log + [Panicked(rustId)])])
  }

  function RemoveStep(s: State, a: nat): (r: State)
    requires a in s.calls
  {
    var c := s.calls[a];
    s.(tables := s.tables.Remove(c.id), calls := s.calls[a := c.(phase := Closing(s.tables.Frame(c.id), 0))])
  }

  function CloseStep(s: State, a: nat): (r: State)
    requires a in s.calls && s.calls[a].phase.Closing? && s.calls[a].phase.next < |s.calls[a].phase.frame|
    requires s.calls[a].phase.frame[s.calls[a].phase.next] < |s.tables.iterators|
  {
    var c := s.calls[a];
    s.(tables := s.tables.Close(c.phase.frame[c.phase.next]),
       calls := s.calls[a := c.(phase := c.phase.(next := c.phase.next + 1))])
  }

  /** The call takes a step that leaves the tables alone. */
  function Becomes(s: State, a: nat, c: Call): (r: State) { s.(calls := s.calls[a := c]) }

  /** The close loop is left. */
  function EndStep(s: State, a: nat): (r: State)
    requires a in s.calls && s.calls[a].phase.Closing?
  {
    Becomes(s, a, s.calls[a].(phase := Ended(s.calls[a].phase.next)))
  }

  /** None when the event is not enabled. */
  function Step(s: State, e: Event): (r: Option<State>) {
    var a := e.call;
    if e.Start? then
      if a in s.calls then None
      else
        var t := s.tables.Start();
        Some(s.(tables := t, owner := s.owner[t.latestCallId := a],
                calls := s.calls[a := Call(t.latestCallId, map[], Idle, [], [])]))
    else if a !in s.calls then None
    else
      var c := s.calls[a];
      match e
      case Scan(_, items) => if c.phase.Idle? then Some(ScanStep(s, a, items)) else None
      case Lookup(_, rustId, kind) =>
        if c.phase.Idle? then Some(Becomes(s, a, LookupStep(s.tables, c, rustId, kind))) else None
      case Use(_, fate) =>
        if c.phase.Holding? && c.phase.handle < |s.tables.iterators| then Some(UseStep(s, a, fate)) else None
      case Remove(_) =>
        if c.phase.Idle? then Some(RemoveStep(s, a)) else None
      case CloseNext(_) =>
        if c.phase.Closing? && c.phase.next < |c.phase.frame| && c.phase.frame[c.phase.next] < |s.tables.iterators| then
          Some(CloseStep(s, a))
        else None
      case Finish(_) =>
        if c.phase.Closing? && c.phase.next == |c.phase.frame| then Some(EndStep(s, a)) else None
      case Unwind(_) =>
        if c.phase.Closing? && c.phase.next > 0 then Some(EndStep(s, a)) else None
  }

  function Exec(s: State, events: seq<Event>): (r: Option<State>)
    decreases |events|
  {
    if events == [] then Some(s)
    else match Step(s, events[0])
      case None => None
      case Some(t) => Exec(t, events[1..])
  }

  // The coupling invariant.

  predicate Active(p: Phase) { p.Idle? || p.Holding? }

  /** How often the k-th iterator of a call has been closed. */
  function ClosesSoFar(p: Phase, k: nat): (n: nat) {
    match p
    case Closing(_, next) => if k < next then 1 else 0
    case Ended(closed) => if k < closed then 1 else 0
    case _ => 0
  }

  ghost predicate Handles(s: State, a: nat, c: Call) {
    && |c.accepted| <= FRAME_LEN_LIMIT
    && forall k :: 0 <= k < |c.accepted| ==>
         && c.accepted[k] < |s.tables.iterators|
         && c.accepted[k] in s.home && s.home[c.accepted[k]] == (a, k)
         && s.tables.iterators[c.accepted[k]].closes == ClosesSoFar(c.phase, k)
  }

  /**
   * Rust's table has domain 0..n-1, the call's Go frame has length n, and entry k refers to
   * this call and to iterator k+1.
   */
  ghost predicate Coupled(t: Tables, c: Call) {
    && t.Frame(c.id) == c.accepted
    && (forall k :: k in c.rust <==> 0 <= k < |c.accepted|)
    && (forall k :: k in c.rust ==> c.rust[k].callId == c.id && c.rust[k].iteratorId == k + 1)
    && |c.rust| == |c.accepted|
  }

  ghost predicate CallInv(s: State, a: nat, c: Call) {
    && 1 <= c.id <= s.tables.latestCallId
    && c.id in s.owner && s.owner[c.id] == a
    && Handles(s, a, c)
    && (Active(c.phase) ==> Coupled(s.tables, c))
    && (!Active(c.phase) ==> c.id !in s.tables.frames)
    && (c.phase.Holding? ==> c.phase.rustId < |c.accepted| && c.phase.handle == c.accepted[c.phase.rustId])
    && (c.phase.Closing? ==> c.phase.frame == c.accepted && c.phase.next <= |c.accepted|)
    && (c.phase.Ended? ==> c.phase.closed <= |c.accepted|)
  }

  ghost predicate CallsInv(s: State) {
    forall a :: a in s.calls ==> CallInv(s, a, s.calls[a])
  }

  /** Call IDs are non-zero, and each belongs to one call. */
  ghost predicate OwnerInv(s: State) {
    && s.tables.latestCallId == |s.calls|
    && s.tables.frames.Keys <= s.owner.Keys
    && forall id :: id in s.owner ==>
         1 <= id <= s.tables.latestCallId && s.owner[id] in s.calls && s.calls[s.owner[id]].id == id
  }

  /** Every iterator is either at home in one place of one frame, or was refused and never closed. */
  ghost predicate HomeInv(s: State) {
    && (forall h :: h in s.home ==>
          && h < |s.tables.iterators|
          && s.home[h].0 in s.calls
          && s.home[h].1 < |s.calls[s.home[h].0].accepted|
          && s.calls[s.home[h].0].accepted[s.home[h].1] == h)
    && (forall h :: 0 <= h < |s.tables.iterators| && h !in s.home ==> s.tables.iterators[h].closes == 0)
  }

  ghost predicate Inv(s: State) { CallsInv(s) && OwnerInv(s) && HomeInv(s) }

  /** A step changes the tables only where they belong to its own call. */
  ghost predicate OnlyTouches(s: State, s': State, a: nat) {
    && a in s'.calls && s'.calls == s.calls[a := s'.calls[a]]
    && s.tables.latestCallId <= s'.tables.latestCallId
    && (forall id :: id in s.owner ==> id in s'.owner && s'.owner[id] == s.owner[id])
    && (forall id :: id != s'.calls[a].id ==>
          (id in s'.tables.frames <==> id in s.tables.frames) && s'.tables.Frame(id) == s.tables.Frame(id))
    && |s.tables.iterators| <= |s'.tables.iterators|
    && (forall h :: 0 <= h < |s.tables.iterators| && !(h in s.home && s.home[h].0 == a) ==>
          s'.tables.iterators[h] == s.tables.iterators[h])
    && (forall h :: h in s.home ==> h in s'.home && s'.home[h] == s.home[h])
    && (forall h :: h in s'.home && h !in s.home ==> h == |s.tables.iterators|)
  }

  lemma OtherKeeps(s: State, s': State, a: nat, b: nat)
    requires Inv(s) && OnlyTouches(s, s', a)
    requires b in s.calls && b != a && s'.calls[a].id != s.calls[b].id
    ensures b in s'.calls && s'.calls[b] == s.calls[b] && CallInv(s', b, s.calls[b])
  {
    var c := s.calls[b];
    assert CallInv(s, b, c);
    forall k | 0 <= k < |c.accepted|
      ensures s'.tables.iterators[c.accepted[k]] == s.tables.iterators[c.accepted[k]]
    {
      assert s.home[c.accepted[k]] == (b, k);
    }
    assert Handles(s', b, c);
  }

  lemma StartTouches(s: State, a: nat)
    requires OwnerInv(s) && a !in s.calls && |s.calls| + 1 < TWO_TO_64
    ensures var s' := Step(s, Start(a)).value;
            OnlyTouches(s, s', a) && s'.calls[a].id !in s.owner
  {
  }

  lemma ScanTouches(s: State, a: nat, items: Option<seq<Item>>)
    requires HomeInv(s) && a in s.calls
    ensures OnlyTouches(s, ScanStep(s, a, items), a)
  {
  }

  lemma UseTouches(s: State, a: nat, fate: Fate)
    requires a in s.calls && s.calls[a].phase.Holding? && s.calls[a].phase.handle < |s.tables.iterators|
    requires CallInv(s, a, s.calls[a])
    ensures OnlyTouches(s, UseStep(s, a, fate), a)
  {
  }

  lemma BecomesTouches(s: State, a: nat, c: Call)
    requires a in s.calls && c.id == s.calls[a].id
    ensures OnlyTouches(s, Becomes(s, a, c), a)
  {
  }

  lemma RemoveTouches(s: State, a: nat)
    requires a in s.calls
    ensures OnlyTouches(s, RemoveStep(s, a), a)
  {
  }

  lemma CloseTouches(s: State, a: nat)
    requires a in s.calls && s.calls[a].phase.Closing? && s.calls[a].phase.next < |s.calls[a].phase.frame|
    requires s.calls[a].phase.frame[s.calls[a].phase.next] < |s.tables.iterators|
    requires CallInv(s, a, s.calls[a])
    ensures OnlyTouches(s, CloseStep(s, a), a)
  {
  }

  lemma StartKeeps(s: State, a: nat)
    requires Inv(s) && a !in s.calls && |s.calls| + 1 < TWO_TO_64
    ensures Inv(Step(s, Start(a)).value)
  {
    StartTouches(s, a);
    var s' := Step(s, Start(a)).value;
    forall b | b in s.calls ensures CallInv(s', b, s'.calls[b]) {
      assert CallInv(s, b, s.calls[b]);
      OtherKeeps(s, s', a, b);
    }
    StartsClean(s, a);
  }

  lemma StartsClean(s: State, a: nat)
    requires OwnerInv(s) && HomeInv(s) && a !in s.calls && |s.calls| + 1 < TWO_TO_64
    ensures var s' := Step(s, Start(a)).value;
            CallInv(s', a, s'.calls[a]) && OwnerInv(s') && HomeInv(s')
  {
    StartOwn(s, a);
    var s' := Step(s, Start(a)).value;
    StartOwner(s, s', a, s'.tables.latestCallId, s'.calls[a]);
    StartHome(s, a);
  }

  lemma StartOwn(s: State, a: nat)
    requires OwnerInv(s) && a !in s.calls && |s.calls| + 1 < TWO_TO_64
    ensures var s' := Step(s, Start(a)).value; CallInv(s', a, s'.calls[a])
  {
    assert s.tables.Start().latestCallId !in s.owner;
  }

  lemma StartOwner(s: State, s': State, a: nat, id: u64, c: Call)
    requires OwnerInv(s) && a !in s.calls && id == s.tables.latestCallId + 1 && c.id == id
    requires s'.calls == s.calls[a := c] && s'.owner == s.owner[id := a]
    requires s'.tables.latestCallId == id && s'.tables.frames == s.tables.frames
    ensures OwnerInv(s')
  {
    NewKey(s.calls, a, c);
    forall other | other in s'.owner
      ensures 1 <= other <= id && s'.owner[other] in s'.calls && s'.calls[s'.owner[other]].id == other
    {
      if other != id { assert other in s.owner && s.owner[other] != a; }
    }
  }

  lemma NewKey<K, V>(m: map<K, V>, k: K, v: V)
    requires k !in m
    ensures |m[k := v]| == |m| + 1
  {
    assert m[k := v].Keys == m.Keys + {k};
    assert |m[k := v]| == |m[k := v].Keys| && |m| == |m.Keys|;
  }

  lemma StartHome(s: State, a: nat)
    requires HomeInv(s) && a !in s.calls
    ensures HomeInv(Step(s, Start(a)).value)
  {
  }

  /** A scan whose frame has room is accepted under the next Rust ID, which was free. */
  lemma ScanAccepts(s: State, a: nat, items: seq<Item>)
    requires a in s.calls && s.calls[a].phase.Idle? && CallInv(s, a, s.calls[a])
    requires |s.calls[a].accepted| < FRAME_LEN_LIMIT
    ensures var c := s.calls[a];
            var n := |c.accepted|;
            var h := |s.tables.iterators|;
            var s' := ScanStep(s, a, Some(items));
            && n !in c.rust
            && s'.calls[a] == c.(rust := c.rust[n := IteratorReference(c.id, n + 1)],
                                 accepted := c.accepted + [h], log := c.log + [Scanned(n)])
            && s'.tables.Frame(c.id) == c.accepted + [h]
            && s'.tables.iterators == s.tables.iterators + [GoIterator(items, 0)]
            && s'.tables.latestCallId == s.tables.latestCallId
            && s'.home == s.home[h := (a, n)] && s'.owner == s.owner
  {
  }

  lemma ScanRefuses(s: State, a: nat, items: Option<seq<Item>>)
    requires a in s.calls && s.calls[a].phase.Idle? && CallInv(s, a, s.calls[a])
    requires items.None? || |s.calls[a].accepted| >= FRAME_LEN_LIMIT
    ensures var c := s.calls[a];
            var s' := ScanStep(s, a, items);
            && s'.calls[a] == c.(log := c.log + [if items.None? then ScanFailed else LimitHit])
            && s'.tables.frames == s.tables.frames && s'.tables.latestCallId == s.tables.latestCallId
            && s.tables.iterators <= s'.tables.iterators
            && s'.home == s.home && s'.owner == s.owner
  {
  }

  lemma AcceptedHandles(s: State, s': State, a: nat, c: Call, c': Call, items: seq<Item>)
    requires Handles(s, a, c) && c.phase.Idle? && |c.accepted| < FRAME_LEN_LIMIT && c'.phase.Idle?
    requires c'.accepted == c.accepted + [|s.tables.iterators|]
    requires s'.tables.iterators == s.tables.iterators + [GoIterator(items, 0)]
    requires s'.home == s.home[|s.tables.iterators| := (a, |c.accepted|)]
    ensures Handles(s', a, c')
  {
    forall k | 0 <= k < |c'.accepted|
      ensures && c'.accepted[k] < |s'.tables.iterators|
              && c'.accepted[k] in s'.home && s'.home[c'.accepted[k]] == (a, k)
              && s'.tables.iterators[c'.accepted[k]].closes == 0
    {
      if k < |c.accepted| { assert c'.accepted[k] == c.accepted[k]; }
    }
  }

  lemma AcceptedCoupled(t: Tables, t': Tables, c: Call, c': Call, h: nat)
    requires Coupled(t, c) && |c.accepted| < FRAME_LEN_LIMIT && c'.id == c.id
    requires c'.accepted == c.accepted + [h] && t'.Frame(c.id) == c'.accepted
    requires c'.rust == c.rust[|c.accepted| := IteratorReference(c.id, |c.accepted| + 1)]
    ensures Coupled(t', c')
  {
    NewKey(c.rust, |c.accepted|, c'.rust[|c.accepted|]);
    forall k ensures k in c'.rust <==> 0 <= k < |c'.accepted| {
      assert k in c'.rust <==> k in c.rust || k == |c.accepted|;
    }
  }

  lemma RefusedOwn(s: State, s': State, a: nat, log: seq<Answer>)
    requires a in s.calls && a in s'.calls && s.calls[a].phase.Idle? && CallInv(s, a, s.calls[a])
    requires s'.calls[a] == s.calls[a].(log := log)
    requires s'.tables.frames == s.tables.frames && s'.tables.latestCallId == s.tables.latestCallId
    requires s.tables.iterators <= s'.tables.iterators && s'.home == s.home && s'.owner == s.owner
    ensures CallInv(s', a, s'.calls[a])
  {
    assert Handles(s', a, s'.calls[a]);
  }

  lemma AcceptedOwn(s: State, s': State, a: nat, items: seq<Item>)
    requires a in s.calls && a in s'.calls && s.calls[a].phase.Idle? && CallInv(s, a, s.calls[a])
    requires |s.calls[a].accepted| < FRAME_LEN_LIMIT
    requires var c, n, h := s.calls[a], |s.calls[a].accepted|, |s.tables.iterators|;
             && s'.calls[a] == c.(rust := c.rust[n := IteratorReference(c.id, n + 1)],
                                  accepted := c.accepted + [h], log := c.log + [Scanned(n)])
             && s'.tables.Frame(c.id) == c.accepted + [h]
             && s'.tables.iterators == s.tables.iterators + [GoIterator(items, 0)]
             && s'.tables.latestCallId == s.tables.latestCallId
             && s'.home == s.home[h := (a, n)] && s'.owner == s.owner
    ensures CallInv(s', a, s'.calls[a])
  {
    AcceptedHandles(s, s', a, s.calls[a], s'.calls[a], items);
    AcceptedCoupled(s.tables, s'.tables, s.calls[a], s'.calls[a], |s.tables.iterators|);
  }

  lemma ScanOwn(s: State, a: nat, items: Option<seq<Item>>)
    requires a in s.calls && s.calls[a].phase.Idle? && CallInv(s, a, s.calls[a])
    ensures var s' := ScanStep(s, a, items); CallInv(s', a, s'.calls[a])
  {
    var s' := ScanStep(s, a, items);
    if items.Some? && |s.calls[a].accepted| < FRAME_LEN_LIMIT {
      ScanAccepts(s, a, items.value);
      AcceptedOwn(s, s', a, items.value);
    } else {
      ScanRefuses(s, a, items);
      RefusedOwn(s, s', a, s'.calls[a].log);
    }
  }

  lemma AcceptedHome(s: State, s': State, a: nat, c': Call, items: seq<Item>)
    requires HomeInv(s) && a in s.calls && s'.calls == s.calls[a := c']
    requires c'.accepted == s.calls[a].accepted + [|s.tables.iterators|]
    requires s'.tables.iterators == s.tables.iterators + [GoIterator(items, 0)]
    requires s'.home == s.home[|s.tables.iterators| := (a, |s.calls[a].accepted|)]
    ensures HomeInv(s')
  {
  }

  lemma RefusedHome(s: State, s': State, a: nat, c': Call)
    requires HomeInv(s) && a in s.calls && s'.calls == s.calls[a := c']
    requires c'.accepted == s.calls[a].accepted && s'.home == s.home
    requires s.tables.iterators <= s'.tables.iterators
    requires forall h :: |s.tables.iterators| <= h < |s'.tables.iterators| ==> s'.tables.iterators[h].closes == 0
    ensures HomeInv(s')
  {
  }

  lemma ScanHome(s: State, a: nat, items: Option<seq<Item>>)
    requires HomeInv(s) && a in s.calls && s.calls[a].phase.Idle? && CallInv(s, a, s.calls[a])
    ensures HomeInv(ScanStep(s, a, items))
  {
    var s' := ScanStep(s, a, items);
    if items.Some? && |s.calls[a].accepted| < FRAME_LEN_LIMIT {
      ScanAccepts(s, a, items.value);
      AcceptedHome(s, s', a, s'.calls[a], items.value);
    } else {
      ScanRefuses(s, a, items);
      RefusedHome(s, s', a, s'.calls[a]);
    }
  }

  lemma LookupOwn(s: State, a: nat, rustId: nat, kind: Kind)
    requires a in s.calls && s.calls[a].phase.Idle? && CallInv(s, a, s.calls[a])
    ensures var s' := Becomes(s, a, LookupStep(s.tables, s.calls[a], rustId, kind)); CallInv(s', a, s'.calls[a])
    ensures var c := LookupStep(s.tables, s.calls[a], rustId, kind);
            if rustId < |s.calls[a].accepted|
            then c == s.calls[a].(phase := Holding(s.calls[a].accepted[rustId], rustId, kind))
            else c == s.calls[a].(log := s.calls[a].log + [NoIterator(rustId)])
  {
  }

  lemma UseOwn(s: State, a: nat, fate: Fate)
    requires a in s.calls && s.calls[a].phase.Holding? && CallInv(s, a, s.calls[a])
    ensures var s' := UseStep(s, a, fate); CallInv(s', a, s'.calls[a])
    ensures s.tables.iterators[s.calls[a].phase.handle].closes == 0
  {
  }

  lemma RemoveOwn(s: State, a: nat)
    requires a in s.calls && s.calls[a].phase.Idle? && CallInv(s, a, s.calls[a])
    ensures var s' := RemoveStep(s, a); CallInv(s', a, s'.calls[a])
  {
    assert Handles(RemoveStep(s, a), a, RemoveStep(s, a).calls[a]);
  }

  lemma CloseOwn(s: State, a: nat)
    requires a in s.calls && s.calls[a].phase.Closing? && s.calls[a].phase.next < |s.calls[a].phase.frame|
    requires s.calls[a].phase.frame[s.calls[a].phase.next] < |s.tables.iterators|
    requires CallInv(s, a, s.calls[a])
    ensures var s' := CloseStep(s, a); CallInv(s', a, s'.calls[a])
  {
    var c := s.calls[a];
    var s' := CloseStep(s, a);
    forall k | 0 <= k < |c.accepted| && c.accepted[k] == c.accepted[c.phase.next] ensures k == c.phase.next {
      assert s.home[c.accepted[k]] == (a, k);
    }
    assert Handles(s', a, s'.calls[a]);
  }

  lemma EndOwn(s: State, a: nat)
    requires a in s.calls && s.calls[a].phase.Closing? && CallInv(s, a, s.calls[a])
    ensures var s' := EndStep(s, a); CallInv(s', a, s'.calls[a])
  {
    var s' := EndStep(s, a);
    assert Handles(s', a, s'.calls[a]);
  }

  /** The bookkeeping part for steps that neither start a call nor store an iterator. */
  lemma RestKeeps(s: State, s': State, a: nat)
    requires OwnerInv(s) && HomeInv(s) && OnlyTouches(s, s', a) && a in s.calls
    requires s'.calls[a].id == s.calls[a].id && s'.calls[a].accepted == s.calls[a].accepted
    requires s'.owner == s.owner && s'.home == s.home && s'.tables.latestCallId == s.tables.latestCallId
    requires s'.tables.frames.Keys <= s.tables.frames.Keys && |s'.tables.iterators| == |s.tables.iterators|
    ensures OwnerInv(s') && HomeInv(s')
  {
    assert s'.calls.Keys == s.calls.Keys;
  }

  lemma ScanOwner(s: State, a: nat, items: Option<seq<Item>>)
    requires OwnerInv(s) && a in s.calls && CallInv(s, a, s.calls[a])
    ensures OwnerInv(ScanStep(s, a, items))
  {
    var s' := ScanStep(s, a, items);
    assert s'.calls.Keys == s.calls.Keys;
  }

  lemma OthersKeep(s: State, s': State, a: nat)
    requires Inv(s) && OnlyTouches(s, s', a) && a in s.calls && s'.calls[a].id == s.calls[a].id
    requires CallInv(s', a, s'.calls[a])
    ensures CallsInv(s')
  {
    forall b | b in s'.calls ensures CallInv(s', b, s'.calls[b]) {
      if b != a {
        assert CallInv(s, a, s.calls[a]) && CallInv(s, b, s.calls[b]);
        OtherKeeps(s, s', a, b);
      }
    }
  }

  lemma ScanKeeps(s: State, a: nat, items: Option<seq<Item>>)
    requires Inv(s) && a in s.calls && s.calls[a].phase.Idle?
    ensures Inv(ScanStep(s, a, items))
  {
    assert CallInv(s, a, s.calls[a]);
    ScanTouches(s, a, items);
    ScanOwn(s, a, items);
    ScanHome(s, a, items);
    ScanOwner(s, a, items);
    OthersKeep(s, ScanStep(s, a, items), a);
  }

  lemma UseFacts(s: State, a: nat, fate: Fate)
    requires a in s.calls && s.calls[a].phase.Holding? && s.calls[a].phase.handle < |s.tables.iterators|
    ensures var s' := UseStep(s, a, fate);
            && s'.calls[a].id == s.calls[a].id && s'.calls[a].accepted == s.calls[a].accepted
            && s'.owner == s.owner && s'.home == s.home && s'.tables.latestCallId == s.tables.latestCallId
            && s'.tables.frames == s.tables.frames && |s'.tables.iterators| == |s.tables.iterators|
  {
  }

  lemma UseKeeps(s: State, a: nat, fate: Fate)
    requires Inv(s) && a in s.calls && s.calls[a].phase.Holding? && s.calls[a].phase.handle < |s.tables.iterators|
    ensures Inv(UseStep(s, a, fate))
  {
    assert CallInv(s, a, s.calls[a]);
    UseTouches(s, a, fate);
    UseOwn(s, a, fate);
    UseFacts(s, a, fate);
    RestKeeps(s, UseStep(s, a, fate), a);
    OthersKeep(s, UseStep(s, a, fate), a);
  }

  lemma LookupKeeps(s: State, a: nat, rustId: nat, kind: Kind)
    requires Inv(s) && a in s.calls && s.calls[a].phase.Idle?
    ensures Inv(Becomes(s, a, LookupStep(s.tables, s.calls[a], rustId, kind)))
  {
    assert CallInv(s, a, s.calls[a]);
    LookupOwn(s, a, rustId, kind);
    BecomesKeeps(s, a, LookupStep(s.tables, s.calls[a], rustId, kind));
  }

  lemma BecomesKeeps(s: State, a: nat, c: Call)
    requires Inv(s) && a in s.calls && c.id == s.calls[a].id && c.accepted == s.calls[a].accepted
    requires CallInv(Becomes(s, a, c), a, c)
    ensures Inv(Becomes(s, a, c))
  {
    BecomesTouches(s, a, c);
    RestKeeps(s, Becomes(s, a, c), a);
    OthersKeep(s, Becomes(s, a, c), a);
  }

  lemma RemoveKeeps(s: State, a: nat)
    requires Inv(s) && a in s.calls && s.calls[a].phase.Idle?
    ensures Inv(RemoveStep(s, a))
  {
    assert CallInv(s, a, s.calls[a]);
    RemoveTouches(s, a);
    RemoveOwn(s, a);
    RestKeeps(s, RemoveStep(s, a), a);
    OthersKeep(s, RemoveStep(s, a), a);
  }

  lemma CloseKeeps(s: State, a: nat)
    requires Inv(s)
    requires a in s.calls && s.calls[a].phase.Closing? && s.calls[a].phase.next < |s.calls[a].phase.frame|
    requires s.calls[a].phase.frame[s.calls[a].phase.next] < |s.tables.iterators|
    ensures Inv(CloseStep(s, a))
  {
    assert CallInv(s, a, s.calls[a]);
    CloseTouches(s, a);
    CloseOwn(s, a);
    RestKeeps(s, CloseStep(s, a), a);
    OthersKeep(s, CloseStep(s, a), a);
  }

  lemma EndKeeps(s: State, a: nat)
    requires Inv(s) && a in s.calls && s.calls[a].phase.Closing?
    ensures Inv(EndStep(s, a))
  {
    assert CallInv(s, a, s.calls[a]);
    EndOwn(s, a);
    BecomesKeeps(s, a, EndStep(s, a).calls[a]);
  }

  /** The steps by name. */
  lemma StepCases(s: State, e: Event)
    requires Step(s, e).Some?
    ensures var s' := Step(s, e).value;
            var a := e.call;
            match e
            case Start(_) => a !in s.calls
            case Scan(_, items) => a in s.calls && s.calls[a].phase.Idle? && s' == ScanStep(s, a, items)
            case Lookup(_, rustId, kind) =>
              && a in s.calls && s.calls[a].phase.Idle?
              && s' == Becomes(s, a, LookupStep(s.tables, s.calls[a], rustId, kind))
            case Use(_, fate) =>
              && a in s.calls && s.calls[a].phase.Holding? && s.calls[a].phase.handle < |s.tables.iterators|
              && s' == UseStep(s, a, fate)
            case Remove(_) => a in s.calls && s.calls[a].phase.Idle? && s' == RemoveStep(s, a)
            case CloseNext(_) =>
              && a in s.calls && s.calls[a].phase.Closing? && s.calls[a].phase.next < |s.calls[a].phase.frame|
              && s.calls[a].phase.frame[s.calls[a].phase.next] < |s.tables.iterators|
              && s' == CloseStep(s, a)
            case Finish(_) =>
              && a in s.calls && s.calls[a].phase.Closing? && s.calls[a].phase.next == |s.calls[a].phase.frame|
              && s' == EndStep(s, a)
            case Unwind(_) =>
              a in s.calls && s.calls[a].phase.Closing? && s.calls[a].phase.next > 0 && s' == EndStep(s, a)
  {
  }

  lemma StepKeeps(s: State, e: Event)
    requires Inv(s) && Step(s, e).Some? && (e.Start? ==> |s.calls| + 1 < TWO_TO_64)
    ensures Inv(Step(s, e).value)
  {
    StepCases(s, e);
    match e
    case Start(a) => StartKeeps(s, a);
    case Scan(a, items) => ScanKeeps(s, a, items);
    case Lookup(a, rustId, kind) => LookupKeeps(s, a, rustId, kind);
    case Use(a, fate) => UseKeeps(s, a, fate);
    case Remove(a) => RemoveKeeps(s, a);
    case CloseNext(a) => CloseKeeps(s, a);
    case Finish(a) => EndKeeps(s, a);
    case Unwind(a) => EndKeeps(s, a);
  }

  lemma StepTouches(s: State, e: Event)
    requires Inv(s) && Step(s, e).Some? && (e.Start? ==> |s.calls| + 1 < TWO_TO_64)
    ensures OnlyTouches(s, Step(s, e).value, e.call)
  {
    StepCases(s, e);
    var a := e.call;
    if a in s.calls { assert CallInv(s, a, s.calls[a]); }
    match e
    case Start(_) => StartTouches(s, a);
    case Scan(_, items) => ScanTouches(s, a, items);
    case Lookup(_, rustId, kind) =>
      LookupOwn(s, a, rustId, kind);
      BecomesTouches(s, a, LookupStep(s.tables, s.calls[a], rustId, kind));
    case Use(_, fate) => UseTouches(s, a, fate);
    case Remove(_) => RemoveTouches(s, a);
    case CloseNext(_) => CloseTouches(s, a);
    case Finish(_) => BecomesTouches(s, a, EndStep(s, a).calls[a]);
    case Unwind(_) => BecomesTouches(s, a, EndStep(s, a).calls[a]);
  }

  // Whole runs.

  function Starts(events: seq<Event>): (n: nat) {
    if events == [] then 0 else Starts(events[1..]) + if events[0].Start? then 1 else 0
  }

  lemma CountStarts(s: State, e: Event)
    requires Step(s, e).Some? && s.tables.latestCallId + 1 < TWO_TO_64
    ensures Step(s, e).value.tables.latestCallId == s.tables.latestCallId + if e.Start? then 1 else 0
  {
  }

  lemma {:induction false} ExecKeeps(s: State, events: seq<Event>)
    requires Inv(s) && Exec(s, events).Some? && |s.calls| + Starts(events) < TWO_TO_64
    ensures Inv(Exec(s, events).value)
    decreases |events|
  {
    if events != [] {
      StepKeeps(s, events[0]);
      if events[0].Start? { CountStarts(s, events[0]); } else { SameLatest(s, events[0]); }
      ExecKeeps(Step(s, events[0]).value, events[1..]);
    }
  }

  lemma SameLatest(s: State, e: Event)
    requires Step(s, e).Some? && !e.Start?
    ensures Step(s, e).value.tables.latestCallId == s.tables.latestCallId
  {
  }

  /** What the history fields say of a state that some run leads to. */
  lemma Reachable(events: seq<Event>)
    requires Exec(Init, events).Some? && Starts(events) < TWO_TO_64
    ensures Inv(Exec(Init, events).value)
  {
    ExecKeeps(Init, events);
  }

  lemma CoupledRetrieve(t: Tables, c: Call, k: nat)
    requires Coupled(t, c) && |c.accepted| <= FRAME_LEN_LIMIT
    ensures k in c.rust <==> k < |t.Frame(c.id)|
    ensures k in c.rust ==> t.Retrieve(c.rust[k].callId, c.rust[k].iteratorId) == Some(t.Frame(c.id)[k])
  {
  }

  /**
   * Coupling. In every reachable state a running call's Rust table has exactly the IDs
   * 0..n-1, entry k names this call and iterator k+1, and that name resolves to slot k of the
   * call's frame, whose length is n and at most the limit. Call IDs are distinct and non-zero.
   */
  lemma TablesAgree(events: seq<Event>, a: nat, b: nat, k: nat)
    requires Exec(Init, events).Some? && Starts(events) < TWO_TO_64
    requires a in Exec(Init, events).value.calls && b in Exec(Init, events).value.calls
    ensures var s := Exec(Init, events).value;
            var c := s.calls[a];
            && c.id != 0
            && (a != b ==> c.id != s.calls[b].id)
            && (Active(c.phase) ==>
                  && |s.tables.Frame(c.id)| <= 32768
                  && (k in c.rust <==> k < |s.tables.Frame(c.id)|)
                  && (k in c.rust ==> s.tables.Retrieve(c.rust[k].callId, c.rust[k].iteratorId)
                                      == Some(s.tables.Frame(c.id)[k])))
  {
    Reachable(events);
    var s := Exec(Init, events).value;
    assert CallInv(s, a, s.calls[a]) && CallInv(s, b, s.calls[b]);
    if Active(s.calls[a].phase) { CoupledRetrieve(s.tables, s.calls[a], k); }
  }

  /**
   * Close, safety. In every reachable state no iterator has been closed more than once, and an
   * iterator that a call is about to use or to close has not been closed.
   */
  lemma NoUseAfterClose(events: seq<Event>, a: nat, h: nat)
    requires Exec(Init, events).Some? && Starts(events) < TWO_TO_64
    ensures var s := Exec(Init, events).value;
            && (h < |s.tables.iterators| ==> s.tables.iterators[h].closes <= 1)
            && (a in s.calls && s.calls[a].phase.Holding? ==>
                  s.calls[a].phase.handle < |s.tables.iterators|
                  && s.tables.iterators[s.calls[a].phase.handle].closes == 0)
            && (a in s.calls && s.calls[a].phase.Closing? && s.calls[a].phase.next < |s.calls[a].phase.frame| ==>
                  s.calls[a].phase.frame[s.calls[a].phase.next] < |s.tables.iterators|
                  && s.tables.iterators[s.calls[a].phase.frame[s.calls[a].phase.next]].closes == 0)
  {
    Reachable(events);
    var s := Exec(Init, events).value;
    if a in s.calls { assert CallInv(s, a, s.calls[a]); }
    if h in s.home { assert CallInv(s, s.home[h].0, s.calls[s.home[h].0]); }
  }

  lemma FrameIsActive(s: State, id: u64)
    requires Inv(s)
    ensures id in s.tables.frames ==> exists a :: a in s.calls && Active(s.calls[a].phase)
  {
    if id in s.tables.frames { assert CallInv(s, s.owner[id], s.calls[s.owner[id]]); }
  }

  predicate NoUnwind(events: seq<Event>) { forall i :: 0 <= i < |events| ==> !events[i].Unwind? }

  /** Calls that have ended went through their whole close loop. */
  ghost predicate EndedFully(s: State) {
    forall a :: a in s.calls && s.calls[a].phase.Ended? ==> s.calls[a].phase.closed == |s.calls[a].accepted|
  }

  lemma StepEndsOwn(s: State, e: Event, s': State)
    requires Step(s, e) == Some(s') && !e.Unwind?
    requires e.call in s.calls && s.calls[e.call].phase.Closing? ==> s.calls[e.call].phase.frame == s.calls[e.call].accepted
    ensures e.call in s'.calls && s'.calls == s.calls[e.call := s'.calls[e.call]]
    ensures s'.calls[e.call].phase.Ended? ==> s'.calls[e.call].phase.closed == |s'.calls[e.call].accepted|
  {
  }

  lemma StepEndsFully(s: State, e: Event)
    requires CallsInv(s) && EndedFully(s) && Step(s, e).Some? && !e.Unwind?
    ensures EndedFully(Step(s, e).value)
  {
    if e.call in s.calls { assert CallInv(s, e.call, s.calls[e.call]); }
    StepEndsOwn(s, e, Step(s, e).value);
  }

  lemma {:induction false} RunEndsFully(s: State, events: seq<Event>)
    requires Inv(s) && EndedFully(s) && Exec(s, events).Some? && |s.calls| + Starts(events) < TWO_TO_64 && NoUnwind(events)
    ensures EndedFully(Exec(s, events).value)
    decreases |events|
  {
    if events != [] {
      StepEndsFully(s, events[0]);
      StepKeeps(s, events[0]);
      if events[0].Start? { CountStarts(s, events[0]); } else { SameLatest(s, events[0]); }
      assert forall i :: 0 <= i < |events[1..]| ==> events[1..][i] == events[i + 1];
      RunEndsFully(Step(s, events[0]).value, events[1..]);
    }
  }

  /** Whether the close loop of its call has reached an iterator. */
  predicate Reached(s: State, h: nat) {
    h in s.home && s.home[h].0 in s.calls && s.home[h].1 < ClosedBy(s.calls[s.home[h].0].phase)
  }

  function ClosedBy(p: Phase): (n: nat) { if p.Closing? then p.next else if p.Ended? then p.closed else 0 }

  /**
   * Close, at the end. Once all calls have ended the frame map is empty and every iterator has been
   * closed once if its call accepted it and the close loop reached it, otherwise not at all. Unless
   * some Close panicked, the loops reached every accepted iterator.
   */
  lemma ClosedExactlyOnce(events: seq<Event>)
    requires Exec(Init, events).Some? && Starts(events) < TWO_TO_64
    requires var s := Exec(Init, events).value; forall a :: a in s.calls ==> s.calls[a].phase.Ended?
    ensures var s := Exec(Init, events).value;
            && s.tables.frames == map[]
            && (forall a, k :: a in s.calls && 0 <= k < |s.calls[a].accepted| ==>
                  s.calls[a].accepted[k] < |s.tables.iterators|
                  && s.tables.iterators[s.calls[a].accepted[k]].closes == if k < s.calls[a].phase.closed then 1 else 0)
            && (forall h :: 0 <= h < |s.tables.iterators| ==> s.tables.iterators[h].closes == if Reached(s, h) then 1 else 0)
            && (NoUnwind(events) ==>
                  && (forall a :: a in s.calls ==> s.calls[a].phase.closed == |s.calls[a].accepted|)
                  && forall h :: 0 <= h < |s.tables.iterators| ==> s.tables.iterators[h].closes == if h in s.home then 1 else 0)
  {
    Reachable(events);
    var s := Exec(Init, events).value;
    forall a | a in s.calls ensures CallInv(s, a, s.calls[a]) {}
    forall id: u64 ensures id !in s.tables.frames { FrameIsActive(s, id); }
    assert s.tables.frames == map[];
    forall h | 0 <= h < |s.tables.iterators| ensures s.tables.iterators[h].closes == if Reached(s, h) then 1 else 0 {
      if h in s.home { assert CallInv(s, s.home[h].0, s.calls[s.home[h].0]); }
    }
    if NoUnwind(events) { RunEndsFully(Init, events); }
  }
}
