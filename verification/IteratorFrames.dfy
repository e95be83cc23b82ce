/**
 * The Go side's table of iterators: one frame per contract call, in a global map, and the
 * counter that hands out call IDs.
 */
module IteratorFrames {
  import opened ByteStrings
  import opened Ranges

  const TWO_TO_64 := 0x1_0000_0000_0000_0000
  const MAX_INT32 := 0x7FFF_FFFF
  const FRAME_LEN_LIMIT := 32768

  /** A 64-bit unsigned word. */
  type u64 = x: int | 0 <= x < 0x1_0000_0000_0000_0000

  function IteratorIdToIndex(id: u64): (r: Option<nat>) {
    if id < 1 || id > MAX_INT32 then None else Some(id - 1)
  }

  function IndexToIteratorId(index: int): (r: Option<u64>) {
    if index < 0 || index > MAX_INT32 then None else Some(index + 1)
  }

  /**
   * The two conversions are inverse for every valid ID, but not for every valid index: the
   * largest accepted index has an ID that the other direction refuses.
   */
  lemma IdsRoundTrip(id: u64, index: int)
    ensures IteratorIdToIndex(id).Some? ==> IndexToIteratorId(IteratorIdToIndex(id).value) == Some(id)
    ensures (IndexToIteratorId(index).Some? && IteratorIdToIndex(IndexToIteratorId(index).value) == Some(index))
            <==> 0 <= index < 0x7FFF_FFFF
    ensures IndexToIteratorId(0x7FFF_FFFF).Some? && IteratorIdToIndex(IndexToIteratorId(0x7FFF_FFFF).value).None?
    ensures IteratorIdToIndex(id).Some? <==> 1 <= id <= 0x7FFF_FFFF
    ensures index >= 0 && IndexToIteratorId(index).Some? ==> IndexToIteratorId(index).value == index + 1
  {
  }

  /** An iterator object: the items it has not delivered yet, and how often it was closed. */
  datatype GoIterator = GoIterator(rest: seq<Item>, closes: nat) {
    predicate Valid() { rest != [] }
  }

  datatype StoreResult = Stored(iteratorId: u64) | LimitReached | NoSuchId

  /** The global tables; frames hold handles into `iterators`. */
  datatype Tables = Tables(latestCallId: u64, frames: map<u64, seq<nat>>, iterators: seq<GoIterator>) {

    /** A missing frame reads as an empty one, as a nil slice does. */
    function Frame(callId: u64): (f: seq<nat>) {
      if callId in frames then frames[callId] else []
    }

    function Start(): (t: Tables) {
      this.(latestCallId := (latestCallId + 1) % TWO_TO_64)
    }

    function Remove(callId: u64): (t: Tables) {
      this.(frames := frames - {callId})
    }

    /** The object a KVStore returns from Iterator or ReverseIterator. */
    function Create(items: seq<Item>): (t: Tables) {
      this.(iterators := iterators + [GoIterator(items, 0)])
    }

    /** The last case has already appended, as the source does. */
    function Store(callId: u64, handle: nat, limit: int): (r: (Tables, StoreResult)) {
      var newIndex := |Frame(callId)|;
      if newIndex >= limit then (this, LimitReached)
      else
        var appended := this.(frames := frames[callId := Frame(callId) + [handle]]);
        match IndexToIteratorId(newIndex)
        case Some(id) => (appended, Stored(id))
        case None => (appended, NoSuchId)
    }

    function Retrieve(callId: u64, iteratorId: u64): (r: Option<nat>) {
      match IteratorIdToIndex(iteratorId)
      case None => None
      case Some(index) =>
        if callId !in frames then None
        else if index >= |frames[callId]| then None
        else Some(frames[callId][index])
    }

    function Advance(h: nat): (t: Tables)
      requires h < |iterators| && iterators[h].Valid()
    {
      this.(iterators := iterators[h := iterators[h].(rest := iterators[h].rest[1..])])
    }

    function Close(h: nat): (t: Tables)
      requires h < |iterators|
    {
      this.(iterators := iterators[h := iterators[h].(closes := iterators[h].closes + 1)])
    }
  }

  /**
   * Storing and retrieving. With a limit of at most MaxInt32 the append-then-fail branch is
   * unreachable, and what was just stored is found again under its ID, as is everything stored
   * earlier, for this call and for all others.
   */
  lemma StoreThenRetrieve(t: Tables, callId: u64, handle: nat, limit: int, otherCall: u64, otherId: u64)
    requires limit <= MAX_INT32
    ensures var (t', r) := t.Store(callId, handle, limit);
            && (r.LimitReached? <==> |t.Frame(callId)| >= limit)
            && !r.NoSuchId?
            && (r.Stored? ==> r.iteratorId == |t.Frame(callId)| + 1 && t'.Retrieve(callId, r.iteratorId) == Some(handle))
            && (r.Stored? ==> t.Retrieve(callId, r.iteratorId) == None)
            && (t.Retrieve(otherCall, otherId).Some?
                ==> t'.Retrieve(otherCall, otherId) == t.Retrieve(otherCall, otherId))
            && (otherCall != callId
                ==> t'.Retrieve(otherCall, otherId) == t.Retrieve(otherCall, otherId))
  {
  }

  /** Beyond that the store either cannot name the iterator or names it in a way no lookup accepts. */
  lemma HugeLimitLosesIterators(t: Tables, callId: u64, handle: nat, limit: int)
    requires MAX_INT32 <= |t.Frame(callId)| < limit
    ensures var (t', r) := t.Store(callId, handle, limit);
            && handle in t'.Frame(callId)
            && (r.Stored? ==> t'.Retrieve(callId, r.iteratorId) == None)
            && (r.NoSuchId? <==> |t.Frame(callId)| > MAX_INT32)
  {
    var t' := t.Store(callId, handle, limit).0;
    assert t'.Frame(callId)[|t.Frame(callId)|] == handle;
  }

  /** The ID of the i-th call started from a fresh counter. */
  function CallId(i: nat): (id: u64) {
    if i == 0 then 0 else Tables(CallId(i - 1), map[], []).Start().latestCallId
  }

  lemma {:induction false} CallIdIs(i: nat)
    requires i <= TWO_TO_64
    ensures CallId(i) == if i < TWO_TO_64 then i else 0
  {
    if i > 0 { CallIdIs(i - 1); }
  }

  /** Call IDs are distinct and non-zero if and only if fewer than 2^64 calls were started. */
  lemma CallIdsUnique(n: nat)
    ensures (forall i, j :: 1 <= i < j <= n ==> CallId(i) != CallId(j)) && (forall i :: 1 <= i <= n ==> CallId(i) != 0)
            <==> n < TWO_TO_64
  {
    if n < TWO_TO_64 {
      forall i | 1 <= i <= n ensures CallId(i) == i { CallIdIs(i); }
    } else {
      CallIdIs(TWO_TO_64);
    }
  }

  /** The package variables of iterator.go, and the iterator objects they reach. */
  class FrameTable {
    var latestCallID: u64
    var iteratorFrames: map<u64, seq<nat>>
    var iterators: seq<GoIterator>

    ghost function View(): (t: Tables)
      reads this
    {
      Tables(latestCallID, iteratorFrames, iterators)
    }

    /** Frames refer to existing objects only. */
    ghost predicate Closed()
      reads this
    {
      forall c, k :: c in iteratorFrames && 0 <= k < |iteratorFrames[c]| ==> iteratorFrames[c][k] < |iterators|
    }

    constructor ()
      ensures View() == Tables(0, map[], []) && Closed()
    {
      latestCallID, iteratorFrames, iterators := 0, map[], [];
    }

    method StartCall() returns (callID: u64)
      modifies this
      ensures View() == old(View()).Start()
      ensures callID == latestCallID
    {
      latestCallID := (latestCallID + 1) % TWO_TO_64;
      callID := latestCallID;
    }

    method RemoveFrame(callID: u64) returns (remove: seq<nat>)
      modifies this
      ensures View() == old(View()).Remove(callID)
      ensures remove == old(View()).Frame(callID)
    {
      remove := if callID in iteratorFrames then iteratorFrames[callID] else [];
      iteratorFrames := iteratorFrames - {callID};
    }

    /**
     * Closes the frame's iterators after letting go of the frame, each as often as it occurs there.
     * A Close that panics, at `panicsAt`, is the last one.
     */
    method EndCall(callID: u64, panicsAt: Option<nat>) returns (panicked: bool)
      requires Closed()
      modifies this
      ensures Closed()
      ensures latestCallID == old(latestCallID) && iteratorFrames == old(iteratorFrames) - {callID}
      ensures |iterators| == |old(iterators)|
      ensures panicked == (panicsAt.Some? && panicsAt.value < |old(View()).Frame(callID)|)
      ensures var reached := if panicked then old(View()).Frame(callID)[..panicsAt.value + 1] else old(View()).Frame(callID);
              forall h :: 0 <= h < |iterators|
                ==> iterators[h] == old(iterators)[h].(closes := old(iterators)[h].closes + multiset(reached)[h])
    {
      ghost var before := iterators;
      var remove := RemoveFrame(callID);
      for i := 0 to |remove|
        invariant panicsAt.Some? ==> i <= panicsAt.value
        invariant latestCallID == old(latestCallID) && iteratorFrames == old(iteratorFrames) - {callID}
        invariant |iterators| == |before|
        invariant forall h :: 0 <= h < |iterators|
                    ==> iterators[h] == before[h].(closes := before[h].closes + multiset(remove[..i])[h])
      {
        assert remove[..i + 1] == remove[..i] + [remove[i]];
        iterators := iterators[remove[i] := iterators[remove[i]].(closes := iterators[remove[i]].closes + 1)];
        if panicsAt == Some(i) {
          return true;
        }
      }
      assert remove[..|remove|] == remove;
      return false;
    }

    method StoreIterator(callID: u64, it: nat, frameLenLimit: int) returns (r: StoreResult)
      modifies this
      ensures (View(), r) == old(View()).Store(callID, it, frameLenLimit)
      ensures old(Closed()) && it < |old(iterators)| ==> Closed()
    {
      var frame := if callID in iteratorFrames then iteratorFrames[callID] else [];
      var newIndex := |frame|;
      if newIndex >= frameLenLimit {
        return LimitReached;
      }
      iteratorFrames := iteratorFrames[callID := frame + [it]];
      var id := IndexToIteratorId(newIndex);
      if id.None? {
        return NoSuchId;
      }
      return Stored(id.value);
    }

    method RetrieveIterator(callID: u64, iteratorID: u64) returns (r: Option<nat>)
      ensures r == View().Retrieve(callID, iteratorID)
    {
      var indexInFrame := IteratorIdToIndex(iteratorID);
      if indexInFrame.None? {
        return None;
      }
      if callID !in iteratorFrames {
        return None;
      }
      var myFrame := iteratorFrames[callID];
      if indexInFrame.value >= |myFrame| {
        return None;
      }
      return Some(myFrame[indexInFrame.value]);
    }
  }
}
