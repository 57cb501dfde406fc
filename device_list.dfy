/** The managed wrapper's view of connected mice: raw-input device entries
    (one per handle) grouped into one record per device id, and the
    background raw-input source that reports per-device motion. */
module DeviceList {
  import opened Wrappers

  /** One raw-input device entry as enumerated: a handle with the device's
      name and id. */
  datatype RawInputDevice = RawInputDevice(handle: int, name: string, id: string)

  /** One physical device: the name and id of its first entry and the
      handles of all its entries. */
  datatype MultiHandleDevice = MultiHandleDevice(name: string, id: string, handles: seq<int>)

  function HandlesOf(run: seq<RawInputDevice>): (hs: seq<int>)
    ensures |hs| == |run| && forall k :: 0 <= k < |run| ==> hs[k] == run[k].handle
  {
    seq(|run|, k requires 0 <= k < |run| => run[k].handle)
  }

  /** The record built from a non-empty run of entries. */
  function Record(run: seq<RawInputDevice>): MultiHandleDevice
    requires run != []
  {
    MultiHandleDevice(run[0].name, run[0].id, HandlesOf(run))
  }

  // ---------------------------------------------------------------------
  // The private constructor
  // ---------------------------------------------------------------------

  /** The constructor walks the entries with an enumerator: the first entry
      gives the name and id, and every entry adds its handle. On an empty
      sequence it leaves all three fields null, which is `None` here. */
  method FromEntries(entries: seq<RawInputDevice>) returns (d: Option<MultiHandleDevice>)
    ensures d.None? <==> entries == []
    ensures d.Some? ==> d.value == Record(entries)
  {
    if |entries| == 0 {
      return None;
    }
    var name, id := entries[0].name, entries[0].id;
    var handles: seq<int> := [];
    var i := 0;
    while i < |entries|
      invariant 0 <= i <= |entries|
      invariant handles == HandlesOf(entries[..i])
    {
      handles := handles + [entries[i].handle];
      i := i + 1;
    }
    assert entries[..|entries|] == entries;
    return Some(MultiHandleDevice(name, id, handles));
  }

  // ---------------------------------------------------------------------
  // Grouping the sorted entries
  // ---------------------------------------------------------------------

  /** The length of the run of leading entries that share the first
      entry's id. */
  function RunLength(s: seq<RawInputDevice>): (n: nat)
    requires s != []
    ensures 1 <= n <= |s|
    ensures forall k :: 0 <= k < n ==> s[k].id == s[0].id
    ensures n < |s| ==> s[n].id != s[0].id
    decreases |s|
  {
    if |s| == 1 || s[1].id != s[0].id then 1 else 1 + RunLength(s[1..])
  }

  /** Entries with equal ids sit next to each other: once the leading run
      ends its id never comes back, and the same holds for the rest. This
      is what sorting by id provides when the comparison puts ordinally
      equal ids together. */
  predicate Grouped(s: seq<RawInputDevice>)
    decreases |s|
  {
    s == [] ||
      ((forall m :: RunLength(s) <= m < |s| ==> s[m].id != s[0].id) && Grouped(s[RunLength(s)..]))
  }

  /** One record per maximal run of equal ids, in order. */
  function Group(s: seq<RawInputDevice>): seq<MultiHandleDevice>
    decreases |s|
  {
    if s == [] then [] else
      var n := RunLength(s);
      [Record(s[..n])] + Group(s[n..])
  }

  /** A run that is known to stop at `n` has length `n`. */
  lemma RunLengthIs(s: seq<RawInputDevice>, n: nat)
    requires 0 < n <= |s|
    requires forall k :: 0 <= k < n ==> s[k].id == s[0].id
    requires n < |s| ==> s[n].id != s[0].id
    ensures RunLength(s) == n
  {
  }

  /** Grouping from `first` emits the run `[first, last)` when the id
      changes at `last` (or the entries end there), then groups the rest;
      so closing that run keeps `done + Group(s[first..])` equal to the
      grouping of all entries. */
  lemma GroupStep(s: seq<RawInputDevice>, done: seq<MultiHandleDevice>, whole: seq<MultiHandleDevice>,
                  first: nat, last: nat)
    requires first < last <= |s|
    requires forall k :: first <= k < last ==> s[k].id == s[first].id
    requires last < |s| ==> s[last].id != s[first].id
    requires done + Group(s[first..]) == whole
    ensures (done + [Record(s[first..last])]) + Group(s[last..]) == whole
    ensures last == |s| ==> done + [Record(s[first..last])] == whole
  {
    GroupFrom(s, first, last);
    var r, g := Record(s[first..last]), Group(s[last..]);
    assert done + ([r] + g) == (done + [r]) + g;
    if last == |s| {
      assert s[last..] == [];
    }
  }

  /** Grouping from `first` closes the run that stops at `last` first. */
  lemma GroupFrom(s: seq<RawInputDevice>, first: nat, last: nat)
    requires first < last <= |s|
    requires forall k :: first <= k < last ==> s[k].id == s[first].id
    requires last < |s| ==> s[last].id != s[first].id
    ensures Group(s[first..]) == [Record(s[first..last])] + Group(s[last..])
  {
    RunOfSlice(s, first, last);
    GroupFirstRun(s[first..], last - first);
    SliceOfSlice(s, first, last);
  }

  lemma SliceOfSlice<T>(s: seq<T>, i: nat, j: nat)
    requires i <= j <= |s|
    ensures s[i..][..j - i] == s[i..j] && s[i..][j - i..] == s[j..]
  {
  }

  /** The run seen from `first` on. */
  lemma RunOfSlice(s: seq<RawInputDevice>, first: nat, last: nat)
    requires first < last <= |s|
    requires forall k :: first <= k < last ==> s[k].id == s[first].id
    requires last < |s| ==> s[last].id != s[first].id
    ensures var t := s[first..];
            && (forall k :: 0 <= k < last - first ==> t[k].id == t[0].id)
            && (last - first < |t| ==> t[last - first].id != t[0].id)
  {
    var t := s[first..];
    forall k | 0 <= k < last - first
      ensures t[k].id == t[0].id
    {
      assert t[k] == s[first + k];
    }
  }

  /** Unfolding the grouping once, for a run known to stop at `n`. */
  lemma GroupFirstRun(t: seq<RawInputDevice>, n: nat)
    requires 0 < n <= |t|
    requires forall k :: 0 <= k < n ==> t[k].id == t[0].id
    requires n < |t| ==> t[n].id != t[0].id
    ensures Group(t) == [Record(t[..n])] + Group(t[n..])
  {
    RunLengthIs(t, n);
  }

  /** `ListMaker::MakeList` after enumeration. `enumerated` is what the
      raw-input enumeration delivered and `sorted` the same entries as
      `List.Sort` with the id comparison leaves them; the sort is trusted to
      put equal ids next to each other. The result is the grouping of the
      sorted entries into runs. */
  method MakeList(ghost enumerated: seq<RawInputDevice>, sorted: seq<RawInputDevice>)
    returns (ret: seq<MultiHandleDevice>)
    requires multiset(sorted) == multiset(enumerated)
    ensures ret == Group(sorted)
    ensures enumerated == [] <==> ret == []
  {
    ret := [];
    var count := |sorted|;
    if count > 0 {
      var first, last := 0, 1;
      assert sorted[0..] == sorted;
      while last != count
        invariant 0 <= first < last <= count
        invariant ret + Group(sorted[first..]) == Group(sorted)
        invariant forall k :: first <= k < last ==> sorted[k].id == sorted[first].id
        decreases count - last
      {
        if sorted[first].id != sorted[last].id {
          GroupStep(sorted, ret, Group(sorted), first, last);
          ret := ret + [Record(sorted[first..last])];
          first := last;
        }
        last := last + 1;
      }
      GroupStep(sorted, ret, Group(sorted), first, last);
      ret := ret + [Record(sorted[first..last])];
    }
    assert |multiset(sorted)| == |sorted| && |multiset(enumerated)| == |enumerated|;
  }

  /** The ids occurring among some entries. */
  function Ids(s: seq<RawInputDevice>): set<string> {
    set k | 0 <= k < |s| :: s[k].id
  }

  /** Every record's id is the id of one of the entries it was built from. */
  lemma {:induction false} GroupIdsFromEntries(s: seq<RawInputDevice>)
    ensures forall d :: d in Group(s) ==> d.id in Ids(s)
    decreases |s|
  {
    if s != [] {
      var n := RunLength(s);
      GroupIdsFromEntries(s[n..]);
      forall d | d in Group(s[n..]) ensures d.id in Ids(s) {
        var k :| 0 <= k < |s[n..]| && s[n..][k].id == d.id;
        assert s[n + k].id == d.id;
      }
    }
  }

  /** No two records share an id. */
  predicate IdsDistinct(ds: seq<MultiHandleDevice>) {
    forall a, b :: 0 <= a < b < |ds| ==> ds[a].id != ds[b].id
  }

  /** Putting a record in front of records with other ids keeps the ids
      distinct. */
  lemma ConsIdsDistinct(r: MultiHandleDevice, ds: seq<MultiHandleDevice>)
    requires IdsDistinct(ds)
    requires forall d :: d in ds ==> d.id != r.id
    ensures IdsDistinct([r] + ds)
  {
    var g := [r] + ds;
    forall a, b | 0 <= a < b < |g|
      ensures g[a].id != g[b].id
    {
      assert g[b] == ds[b - 1];
      if a > 0 {
        assert g[a] == ds[a - 1];
      }
    }
  }

  /** With equal ids kept together, no two records share an id. */
  lemma {:induction false} GroupIdsDistinct(s: seq<RawInputDevice>)
    requires Grouped(s)
    ensures IdsDistinct(Group(s))
    decreases |s|
  {
    if s != [] {
      var n := RunLength(s);
      var rest := s[n..];
      GroupIdsDistinct(rest);
      GroupIdsFromEntries(rest);
      var r := Record(s[..n]);
      assert r.id == s[0].id;
      forall d | d in Group(rest)
        ensures d.id != r.id
      {
        var k :| 0 <= k < |rest| && rest[k].id == d.id;
        assert rest[k] == s[n + k];
      }
      ConsIdsDistinct(r, Group(rest));
    }
  }

  /** The handles of a list of records, record after record. */
  function AllHandles(ds: seq<MultiHandleDevice>): seq<int>
    decreases |ds|
  {
    if ds == [] then [] else ds[0].handles + AllHandles(ds[1..])
  }

  /** The records hold exactly the handles of the entries, in order: every
      handle lands in exactly one record. */
  lemma {:induction false} GroupKeepsHandles(s: seq<RawInputDevice>)
    ensures AllHandles(Group(s)) == HandlesOf(s)
    decreases |s|
  {
    if s != [] {
      var n := RunLength(s);
      GroupKeepsHandles(s[n..]);
      GroupHead(s);
      SplitHandles(s, n);
    }
  }

  /** The first record holds the leading run's handles. */
  lemma GroupHead(s: seq<RawInputDevice>)
    requires s != []
    ensures AllHandles(Group(s)) == HandlesOf(s[..RunLength(s)]) + AllHandles(Group(s[RunLength(s)..]))
  {
    var g := Group(s);
    assert g[1..] == Group(s[RunLength(s)..]);
  }

  lemma SplitHandles(s: seq<RawInputDevice>, n: nat)
    requires n <= |s|
    ensures HandlesOf(s) == HandlesOf(s[..n]) + HandlesOf(s[n..])
  {
    HandlesOfAppend(s[..n], s[n..]);
    assert s[..n] + s[n..] == s;
  }

  lemma HandlesOfAppend(a: seq<RawInputDevice>, b: seq<RawInputDevice>)
    ensures HandlesOf(a + b) == HandlesOf(a) + HandlesOf(b)
  {
  }

  /** Each record comes from a non-empty run, so none is without handles,
      and there are never more records than entries. */
  lemma {:induction false} GroupRecordsNonEmpty(s: seq<RawInputDevice>)
    ensures |Group(s)| <= |s|
    ensures forall d :: d in Group(s) ==> d.handles != []
    decreases |s|
  {
    if s != [] {
      GroupRecordsNonEmpty(s[RunLength(s)..]);
    }
  }

  /** Reordering entries reorders their handles the same way. */
  lemma {:induction false} HandlesOfPermutation(a: seq<RawInputDevice>, b: seq<RawInputDevice>)
    requires multiset(a) == multiset(b)
    ensures multiset(HandlesOf(a)) == multiset(HandlesOf(b))
    decreases |a|
  {
    if a == [] {
      assert |multiset(b)| == 0;
    } else {
      var k := MatchFirst(a, b);
      var a', b' := a[..0] + a[1..], b[..k] + b[k + 1..];
      HandlesOfPermutation(a', b');
      HandlesOfRemoveAt(b, k);
      HandlesOfRemoveAt(a, 0);
    }
  }

  /** Where the first element of `a` sits in its permutation `b`; without
      it, the rest of `a` is a permutation of the rest of `b`. */
  lemma MatchFirst<T>(a: seq<T>, b: seq<T>) returns (k: nat)
    requires a != [] && multiset(a) == multiset(b)
    ensures k < |b| && b[k] == a[0]
    ensures multiset(a[..0] + a[1..]) == multiset(b[..k] + b[k + 1..])
  {
    assert a[0] in multiset(a);
    k :| 0 <= k < |b| && b[k] == a[0];
    RemoveAt(b, k);
    RemoveAt(a, 0);
  }

  /** Taking out the element at `k` takes out one copy of it. */
  lemma RemoveAt<T>(b: seq<T>, k: nat)
    requires k < |b|
    ensures multiset(b[..k] + b[k + 1..]) == multiset(b) - multiset{b[k]}
  {
    assert b == b[..k] + [b[k]] + b[k + 1..];
  }

  /** Taking out the entry at `k` takes out one copy of its handle. */
  lemma HandlesOfRemoveAt(b: seq<RawInputDevice>, k: nat)
    requires k < |b|
    ensures multiset(HandlesOf(b)) == multiset(HandlesOf(b[..k] + b[k + 1..])) + multiset{b[k].handle}
  {
    var hs := HandlesOf(b);
    assert HandlesOf(b[..k] + b[k + 1..]) == hs[..k] + hs[k + 1..];
    assert hs == hs[..k] + [hs[k]] + hs[k + 1..];
  }

  /** Sorting only reorders, so the records carry the enumerated handles,
      each as often as it was enumerated, none lost and none added. */
  lemma MakeListKeepsHandles(enumerated: seq<RawInputDevice>, sorted: seq<RawInputDevice>)
    requires multiset(sorted) == multiset(enumerated)
    ensures multiset(AllHandles(Group(sorted))) == multiset(HandlesOf(enumerated))
    ensures |AllHandles(Group(sorted))| == |enumerated|
    ensures forall e :: e in enumerated ==> e.handle in AllHandles(Group(sorted))
  {
    GroupKeepsHandles(sorted);
    HandlesOfPermutation(sorted, enumerated);
    assert |multiset(sorted)| == |sorted| && |multiset(enumerated)| == |enumerated|;
    forall e | e in enumerated
      ensures e.handle in AllHandles(Group(sorted))
    {
      assert e in multiset(enumerated);
      assert e in sorted;
      var k :| 0 <= k < |sorted| && sorted[k] == e;
      assert HandlesOf(sorted)[k] == e.handle;
    }
  }

  // ---------------------------------------------------------------------
  // The raw-input message handler of the background source
  // ---------------------------------------------------------------------

  const WmInput: int := 0x00FF
  const WmInputDeviceChange: int := 0x00FE
  /** `(UINT)-1`, the error return of GetRawInputData. */
  const RawReadError: int := 0xFFFF_FFFF
  /** The first size the reused buffer is given. */
  const InitialBufferSize: nat := 256

  /** The decoded RAWINPUT record: a mouse record or another device type. */
  datatype RawRecord = MouseRecord(device: int, lastX: int, lastY: int) | OtherRecord

  /** What the three GetRawInputData calls of one WM_INPUT answer: the first
      read (return value and size written back), the size query, the retry,
      and the record the buffer then holds. */
  datatype RawReads = RawReads(
    firstRet: int, firstRead: int,
    queryRet: int, need: int,
    retryRet: int, retryRead: int,
    record: RawRecord)

  datatype Message = InputMessage(answers: RawReads) | DeviceChangeMessage | OtherMessage(defaultResult: int)

  datatype SourceEvent = DeviceMoved(device: int, dx: int, dy: int) | DeviceListChanged

  /** Whether the first read failed or did not fit the buffer. */
  predicate FirstReadFails(r: RawReads, cap: nat) {
    r.firstRet == RawReadError || r.firstRead > cap
  }

  /** The motion report of a decoded record: only a mouse record with a
      nonzero delta raises `DeviceMoved`. */
  function MotionEvents(rec: RawRecord): (ev: seq<SourceEvent>)
    ensures |ev| <= 1
    ensures ev != [] <==> rec.MouseRecord? && (rec.lastX != 0 || rec.lastY != 0)
    ensures ev != [] ==> ev[0] == DeviceMoved(rec.device, rec.lastX, rec.lastY)
  {
    if rec.MouseRecord? && (rec.lastX != 0 || rec.lastY != 0)
    then [DeviceMoved(rec.device, rec.lastX, rec.lastY)]
    else []
  }

  /** `HandleMessage` on the buffer size: the new size, the events raised
      and the value returned. */
  function OnMessage(bufSize: nat, msg: Message): (nat, seq<SourceEvent>, int) {
    match msg
    case InputMessage(r) =>
      var cap := if bufSize == 0 then InitialBufferSize else bufSize;
      if !FirstReadFails(r, cap) then (cap, MotionEvents(r.record), 0)
      else if r.queryRet != 0 || r.need == 0 then (cap, [], 0)
      else
        var grown := if cap < r.need then r.need else cap;
        if r.retryRet == RawReadError || r.retryRead == 0 then (grown, [], 0)
        else (grown, MotionEvents(r.record), 0)
    case DeviceChangeMessage => (bufSize, [DeviceListChanged], 0)
    case OtherMessage(d) => (bufSize, [], d)
  }

  /** The static buffer is empty until the first WM_INPUT, and from then
      on holds at least 256 bytes. */
  predicate BufferSizeOk(bufSize: nat) {
    bufSize == 0 || bufSize >= InitialBufferSize
  }

  /** The buffer starts at 256 bytes on first use, only ever grows, and is
      at least as large as any size the query asked for before a retry. */
  lemma BufferOnlyGrows(bufSize: nat, msg: Message)
    requires BufferSizeOk(bufSize)
    ensures var r := OnMessage(bufSize, msg);
            && bufSize <= r.0
            && BufferSizeOk(r.0)
            && (msg.InputMessage? ==> r.0 >= InitialBufferSize)
            && (msg.InputMessage? && msg.answers.queryRet == 0 && msg.answers.need != 0 &&
                FirstReadFails(msg.answers, if bufSize == 0 then InitialBufferSize else bufSize)
                ==> r.0 >= msg.answers.need)
  {
  }

  /** Motion is reported only for mouse records with a nonzero delta, only
      after a successful read, and at most once per message; a device change
      raises exactly `DeviceListChanged`. */
  lemma EventsOfMessage(bufSize: nat, msg: Message)
    ensures var ev := OnMessage(bufSize, msg).1;
            && |ev| <= 1
            && (msg.DeviceChangeMessage? <==> ev == [DeviceListChanged])
            && (forall e :: e in ev && e.DeviceMoved? ==>
                  msg.InputMessage? && msg.answers.record == MouseRecord(e.device, e.dx, e.dy) && (e.dx != 0 || e.dy != 0))
  {
  }

  /** Only the size of the reused buffer matters to the handler; it is
      shared by every message the thread handles. */
  class RawInputSource {
    var bufSize: nat

    constructor ()
      ensures bufSize == 0
    {
      bufSize := 0;
    }

    ghost predicate Valid()
      reads this
    {
      BufferSizeOk(bufSize)
    }

    method HandleMessage(msg: Message) returns (result: int, events: seq<SourceEvent>)
      requires Valid()
      modifies this
      ensures Valid()
      ensures (bufSize, events, result) == OnMessage(old(bufSize), msg)
    {
      events := [];
      result := 0;
      match msg {
        case InputMessage(r) =>
          if bufSize == 0 {
            bufSize := InitialBufferSize;
          }
          var cap := bufSize;
          if r.firstRet == RawReadError || r.firstRead > cap {
            if r.queryRet != 0 || r.need == 0 {
              return;
            }
            if bufSize < r.need {
              bufSize := r.need;
            }
            if r.retryRet == RawReadError || r.retryRead == 0 {
              return;
            }
          }
          var rec := r.record;
          if rec.MouseRecord? {
            var dx, dy := rec.lastX, rec.lastY;
            if dx != 0 || dy != 0 {
              events := [DeviceMoved(rec.device, dx, dy)];
            }
          }
        case DeviceChangeMessage =>
          events := [DeviceListChanged];
        case OtherMessage(d) =>
          result := d;
      }
    }
  }
}
