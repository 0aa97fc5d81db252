/** The bump allocator of the builder as a protocol of concurrent threads
    (rtbuild/qbvh6_builder_sah.h, Allocator).  A call of malloc is three atomic
    steps: the test of `cur` against the end, the load of `cur` that computes
    the padding, and the fetch-and-add. */
module Allocator {
  import opened Common

  /** size_t has 64 bits. */
  const WORD: nat := 0x1_0000_0000_0000_0000

  datatype Request = Request(bytes: nat, align: nat) {
    /** Sizes are multiples of a 64-byte block, alignments divide 64. */
    predicate Valid(maxBytes: nat) {
      bytes % 64 == 0 && bytes <= maxBytes && align in {16, 64}
    }
  }

  datatype Thread =
    | Idle
    | Tested(req: Request)
    | Padded(req: Request, extra: nat)

  /** What a fetch-and-add returned: a block or a null pointer. */
  datatype Outcome = Granted(ofs: nat, bytes: nat) | Refused

  /** The buffer ends at `end`; log holds the outcomes of all fetch-and-adds. */
  datatype State = State(cur: nat, end: nat, threads: seq<Thread>, log: seq<Outcome>)

  /** The padding up to a power of two, in unsigned arithmetic. */
  function Extra(cur: nat, align: nat): nat
    requires 0 < align
  {
    (align - cur) % align
  }

  ghost predicate Init(s: State) {
    s.cur == 0 && s.log == [] && forall i :: 0 <= i < |s.threads| ==> s.threads[i] == Idle
  }

  /** The first load: a full buffer ends the call with a null pointer. */
  ghost predicate Test(s: State, s': State, i: nat, req: Request) {
    && i < |s.threads| && s.threads[i] == Idle
    && s' == if s.cur >= s.end then s else s.(threads := s.threads[i := Tested(req)])
  }

  /** The second load, possibly of another value, gives the padding. */
  ghost predicate Pad(s: State, s': State, i: nat) {
    && i < |s.threads| && s.threads[i].Tested? && 0 < s.threads[i].req.align
    && var req := s.threads[i].req;
       s' == s.(threads := s.threads[i := Padded(req, Extra(s.cur, req.align))])
  }

  /** The fetch-and-add reserves request and padding; the new value decides
      whether the block is granted. */
  ghost predicate Add(s: State, s': State, i: nat) {
    && i < |s.threads| && s.threads[i].Padded?
    && var t := s.threads[i];
       var new_ := (s.cur + (t.req.bytes + t.extra) % WORD) % WORD;
       var outcome := if new_ >= s.end then Refused else Granted((s.cur + t.extra) % WORD, t.req.bytes);
       s' == s.(cur := new_, threads := s.threads[i := Idle], log := s.log + [outcome])
  }

  /** One atomic step of one thread. */
  datatype Action = DoTest(thread: nat, req: Request) | DoPad(thread: nat) | DoAdd(thread: nat)

  ghost predicate StepBy(s: State, s': State, a: Action, maxBytes: nat) {
    match a
    case DoTest(i, req) => req.Valid(maxBytes) && Test(s, s', i, req)
    case DoPad(i) => Pad(s, s', i)
    case DoAdd(i) => Add(s, s', i)
  }

  ghost predicate Step(s: State, s': State, maxBytes: nat) {
    exists a: Action :: StepBy(s, s', a, maxBytes)
  }

  /** A run: any interleaving of the steps of all threads. */
  ghost predicate Run(run: seq<State>, maxBytes: nat) {
    && 0 < |run| && Init(run[0])
    && forall k :: 0 <= k < |run| - 1 ==> Step(run[k], run[k + 1], maxBytes)
  }

  /** Threads between the test and the fetch-and-add. */
  function InFlight(threads: seq<Thread>): nat {
    if threads == [] then 0
    else InFlight(threads[..|threads| - 1]) + if threads[|threads| - 1] == Idle then 0 else 1
  }

  /** Bytes asked for by the fetch-and-adds that succeeded. */
  function Used(log: seq<Outcome>): nat {
    if log == [] then 0
    else Used(log[..|log| - 1]) + if log[|log| - 1].Granted? then log[|log| - 1].bytes else 0
  }

  /** Blocks are handed out without gaps, one after the other. */
  ghost predicate Dense(log: seq<Outcome>) {
    forall k :: 0 <= k < |log| && log[k].Granted? ==> log[k].ofs == Used(log[..k])
  }

  /** After a refusal nothing is granted any more. */
  ghost predicate StaysFull(log: seq<Outcome>) {
    forall j, k :: 0 <= j < k < |log| && log[j].Refused? ==> log[k].Refused?
  }

  /** The last block boundary at which a call still passes the test. */
  function LastStart(end: nat): (c: nat)
    requires 0 < end
    ensures c < end <= c + 64 && c % 64 == 0
  {
    InBlocks(end - 1);
    64 * ((end - 1) / 64)
  }

  lemma InBlocks(x: nat)
    ensures 64 * (x / 64) <= x < 64 * (x / 64) + 64 && 64 * (x / 64) % 64 == 0
  {
    assert x == 64 * (x / 64) + x % 64;
  }

  /** The largest request that is a multiple of 64. */
  function LargestRequest(maxBytes: nat): (m: nat)
    ensures m <= maxBytes < m + 64 && m % 64 == 0
  {
    InBlocks(maxBytes);
    64 * (maxBytes / 64)
  }

  /** The counter passes the last boundary by at most one request of every idle
      thread. */
  ghost predicate CurInv(s: State, maxBytes: nat) {
    && s.cur % 64 == 0 && 0 < s.end
    && (s.cur <= LastStart(s.end)
        || s.cur <= LastStart(s.end) + (|s.threads| - InFlight(s.threads)) * LargestRequest(maxBytes))
  }

  ghost predicate ThreadInv(t: Thread, maxBytes: nat) {
    match t
    case Idle => true
    case Tested(req) => req.Valid(maxBytes)
    case Padded(req, extra) => req.Valid(maxBytes) && extra == 0
  }

  ghost predicate LogInv(cur: nat, end: nat, log: seq<Outcome>) {
    && Dense(log) && StaysFull(log)
    && (forall k :: 0 <= k < |log| && log[k].Granted? ==> log[k].ofs % 64 == 0 && log[k].ofs + log[k].bytes < end)
    && (if Refused in log then end <= cur else cur == Used(log))
  }

  ghost predicate Inv(s: State, maxBytes: nat) {
    && CurInv(s, maxBytes)
    && (forall i :: 0 <= i < |s.threads| ==> ThreadInv(s.threads[i], maxBytes))
    && LogInv(s.cur, s.end, s.log)
  }

  /** What a caller of malloc relies on. */
  ghost predicate Safe(s: State) {
    && (forall i, j :: 0 <= i < j < |s.log| && s.log[i].Granted? && s.log[j].Granted? ==>
          s.log[i].ofs + s.log[i].bytes <= s.log[j].ofs)
    && (forall k :: 0 <= k < |s.log| && s.log[k].Granted? ==>
          s.log[k].ofs % 64 == 0 && s.log[k].ofs + s.log[k].bytes < s.end)
    && (forall i :: 0 <= i < |s.threads| && s.threads[i].Padded? ==> s.threads[i].extra == 0)
    && StaysFull(s.log)
    && Dense(s.log)
  }

  lemma {:induction false} InFlightUpdate(threads: seq<Thread>, i: nat, t: Thread)
    requires i < |threads|
    ensures InFlight(threads[i := t])
         == InFlight(threads) - (if threads[i] == Idle then 0 else 1) + (if t == Idle then 0 else 1)
    ensures InFlight(threads) <= |threads|
    ensures threads[i] == Idle ==> InFlight(threads) < |threads|
  {
    var n := |threads| - 1;
    if i == n {
      assert threads[i := t][..n] == threads[..n];
      InFlightBound(threads[..n]);
    } else {
      InFlightUpdate(threads[..n], i, t);
      assert threads[i := t][..n] == threads[..n][i := t];
    }
  }

  lemma {:induction false} InFlightBound(threads: seq<Thread>)
    ensures InFlight(threads) <= |threads|
  {
    if threads != [] {
      InFlightBound(threads[..|threads| - 1]);
    }
  }

  lemma InitInv(s: State, maxBytes: nat)
    requires Init(s) && 0 < s.end
    ensures Inv(s, maxBytes)
  {
  }

  lemma TestInv(s: State, s': State, i: nat, req: Request, maxBytes: nat)
    requires Inv(s, maxBytes) && Test(s, s', i, req) && req.Valid(maxBytes)
    ensures Inv(s', maxBytes)
  {
    hide LogInv;
    InFlightUpdate(s.threads, i, Tested(req));
  }

  lemma PadInv(s: State, s': State, i: nat, maxBytes: nat)
    requires Inv(s, maxBytes) && Pad(s, s', i)
    ensures Inv(s', maxBytes)
  {
    hide LogInv;
    var req := s.threads[i].req;
    assert ThreadInv(s.threads[i], maxBytes);
    NoPadding(s.cur, req.align);
    InFlightUpdate(s.threads, i, Padded(req, 0));
  }

  /** A multiple of 64 needs no padding. */
  /** The least padding to an aligned address. */
  lemma PaddingIs(cur: nat, align: nat, extra: nat)
    requires 0 < align
    ensures Extra(cur, align) < align && (cur + Extra(cur, align)) % align == 0
    ensures (cur + extra) % align == 0 ==> Extra(cur, align) <= extra
  {
    var e, q := Extra(cur, align), (align - cur) / align;
    assert align - cur == align * q + e;
    assert cur + e == align * (1 - q);
    MultipleOf(1 - q, align);
    if (cur + extra) % align == 0 && extra < e {
      var p := (cur + extra) / align;
      assert cur + extra == align * p;
      assert e - extra == align * (1 - q - p);
      TooSmall(align, 1 - q - p);
    }
  }

  lemma MultipleOf(q: int, n: nat)
    requires 0 < n
    ensures n * q % n == 0
  {
    var r := n * q % n;
    var p := n * q / n;
    assert r == n * (q - p);
    TooSmall(n, q - p);
  }

  lemma TooSmall(n: nat, k: int)
    requires 0 < n
    ensures 0 < k ==> n <= n * k
    ensures k <= 0 ==> n * k <= 0
  {
  }

  lemma NoPadding(cur: nat, align: nat)
    requires cur % 64 == 0 && align in {16, 64}
    ensures Extra(cur, align) == 0
  {
  }

  lemma UsedAppend(log: seq<Outcome>, o: Outcome)
    ensures Used(log + [o]) == Used(log) + if o.Granted? then o.bytes else 0
    ensures forall k :: 0 <= k <= |log| ==> (log + [o])[..k] == log[..k]
  {
    assert (log + [o])[..|log|] == log;
  }

  lemma AddLog(log: seq<Outcome>, o: Outcome)
    requires Dense(log) && StaysFull(log)
    requires o.Granted? ==> o.ofs == Used(log) && Refused !in log
    ensures Dense(log + [o]) && StaysFull(log + [o])
  {
    UsedAppend(log, o);
    assert log[..|log|] == log;
    forall k | 0 <= k < |log + [o]| && (log + [o])[k].Granted?
      ensures (log + [o])[k].ofs == Used((log + [o])[..k])
    {
      assert (log + [o])[..k] == log[..k];
    }
  }

  lemma AddCur(cur: nat, start: nat, bytes: nat, threads: nat, inFlight: nat, most: nat)
    requires 0 < inFlight <= threads && bytes <= most && cur % 64 == 0 && bytes % 64 == 0
    requires cur <= start || cur <= start + (threads - inFlight) * most
    ensures (cur + bytes) % 64 == 0
    ensures cur + bytes <= start + (threads - (inFlight - 1)) * most <= start + threads * most
  {
    MulDistribute(threads - inFlight, most);
    MulMono(threads - inFlight + 1, threads, most);
    MulMono(0, threads - inFlight, most);
  }

  lemma AddLogInv(cur: nat, end: nat, log: seq<Outcome>, bytes: nat, o: Outcome)
    requires LogInv(cur, end, log) && bytes % 64 == 0 && cur % 64 == 0
    requires o == if cur + bytes >= end then Refused else Granted(cur, bytes)
    ensures LogInv(cur + bytes, end, log + [o])
  {
    assert o.Granted? ==> Refused !in log;
    AddLog(log, o);
    UsedAppend(log, o);
  }

  lemma AddInv(s: State, s': State, i: nat, maxBytes: nat)
    requires Inv(s, maxBytes) && Add(s, s', i)
    requires 0 < s.end && LastStart(s.end) + |s.threads| * LargestRequest(maxBytes) < WORD
    ensures Inv(s', maxBytes)
  {
    hide LogInv, CurInv;
    var t := s.threads[i];
    var bytes := t.req.bytes;
    assert ThreadInv(t, maxBytes);
    AddCurInv(s, s', i, maxBytes);
    var o := if s.cur + bytes >= s.end then Refused else Granted(s.cur, bytes);
    AddLogInv(s.cur, s.end, s.log, bytes, o);
  }

  /** Without wrap-around the counter grows by the request. */
  lemma AddCurInv(s: State, s': State, i: nat, maxBytes: nat)
    requires CurInv(s, maxBytes) && i < |s.threads| && s.threads[i].Padded?
    requires Add(s, s', i) && ThreadInv(s.threads[i], maxBytes)
    requires LastStart(s.end) + |s.threads| * LargestRequest(maxBytes) < WORD
    ensures CurInv(s', maxBytes) && s.cur % 64 == 0 && s.threads[i].req.bytes % 64 == 0 && s' == Added(s, i)
  {
    hide LastStart, LargestRequest, InFlight, Add;
    var bytes := s.threads[i].req.bytes;
    InFlightUpdate(s.threads, i, Idle);
    RequestFits(bytes, maxBytes);
    AddCur(s.cur, LastStart(s.end), bytes, |s.threads|, InFlight(s.threads), LargestRequest(maxBytes));
    AddIs(s, s', i);
  }

  ghost function Added(s: State, i: nat): State
    requires i < |s.threads| && s.threads[i].Padded?
  {
    var bytes := s.threads[i].req.bytes;
    s.(cur := s.cur + bytes, threads := s.threads[i := Idle],
       log := s.log + [if s.cur + bytes >= s.end then Refused else Granted(s.cur, bytes)])
  }

  lemma AddIs(s: State, s': State, i: nat)
    requires Add(s, s', i) && s.threads[i].extra == 0 && s.cur + s.threads[i].req.bytes < WORD
    ensures s' == Added(s, i)
  {
    SmallMod(s.threads[i].req.bytes, WORD);
    SmallMod(s.cur + s.threads[i].req.bytes, WORD);
    SmallMod(s.cur, WORD);
  }

  lemma RequestFits(bytes: nat, maxBytes: nat)
    requires bytes % 64 == 0 && bytes <= maxBytes
    ensures bytes <= LargestRequest(maxBytes)
  {
  }

  lemma SmallMod(a: nat, m: nat)
    requires a < m
    ensures a % m == a
  {
  }

  lemma StepInv(s: State, s': State, maxBytes: nat)
    requires Inv(s, maxBytes) && Step(s, s', maxBytes)
    requires 0 < s.end && LastStart(s.end) + |s.threads| * LargestRequest(maxBytes) < WORD
    ensures Inv(s', maxBytes) && s'.end == s.end && |s'.threads| == |s.threads|
  {
    hide Inv;
    var a: Action :| StepBy(s, s', a, maxBytes);
    match a
    case DoTest(i, req) => TestInv(s, s', i, req, maxBytes);
    case DoPad(i) => PadInv(s, s', i, maxBytes);
    case DoAdd(i) => AddInv(s, s', i, maxBytes);
  }

  lemma {:induction false} UsedMono(log: seq<Outcome>, j: nat, k: nat)
    requires j < k <= |log|
    ensures Used(log[..j]) + (if log[j].Granted? then log[j].bytes else 0) <= Used(log[..k])
    decreases k
  {
    assert log[..k][..k - 1] == log[..k - 1];
    if j < k - 1 {
      UsedMono(log, j, k - 1);
    }
  }

  lemma InvSafe(s: State, maxBytes: nat)
    requires Inv(s, maxBytes)
    ensures Safe(s)
  {
    assert forall i :: 0 <= i < |s.threads| ==> ThreadInv(s.threads[i], maxBytes);
    forall i, j | 0 <= i < j < |s.log| && s.log[i].Granted? && s.log[j].Granted?
      ensures s.log[i].ofs + s.log[i].bytes <= s.log[j].ofs
    {
      UsedMono(s.log, i, j);
    }
  }

  /** In every state of every run the blocks handed out are disjoint, aligned
      and inside the buffer, no padding is ever added, the blocks follow each
      other without gaps and a refusal is final.  The condition leaves room for
      every thread to add once after the last boundary. */
  lemma {:induction false} EveryRunIsSafe(run: seq<State>, maxBytes: nat, k: nat)
    requires Run(run, maxBytes) && k < |run|
    requires 0 < run[0].end && LastStart(run[0].end) + |run[0].threads| * LargestRequest(maxBytes) < WORD
    ensures run[k].end == run[0].end && |run[k].threads| == |run[0].threads|
    ensures Inv(run[k], maxBytes) && Safe(run[k])
  {
    hide Inv, Safe, Step, Init;
    if k == 0 {
      InitInv(run[0], maxBytes);
    } else {
      EveryRunIsSafe(run, maxBytes, k - 1);
      StepInv(run[k - 1], run[k], maxBytes);
    }
    InvSafe(run[k], maxBytes);
  }

  /** The number of bytes reported as allocated passes the last boundary by at
      most one request per thread. */
  lemma BoundedOvershoot(run: seq<State>, maxBytes: nat, k: nat)
    requires Run(run, maxBytes) && k < |run|
    requires 0 < run[0].end && LastStart(run[0].end) + |run[0].threads| * LargestRequest(maxBytes) < WORD
    ensures run[k].cur <= LastStart(run[0].end) + |run[0].threads| * LargestRequest(maxBytes)
  {
    hide LastStart, LargestRequest;
    EveryRunIsSafe(run, maxBytes, k);
    var s := run[k];
    InFlightBound(s.threads);
    MulMono(0, |s.threads|, LargestRequest(maxBytes));
    MulMono(|s.threads| - InFlight(s.threads), |s.threads|, LargestRequest(maxBytes));
  }

  // ----- a run that wraps the counter

  /** The run leads to the state. */
  ghost predicate Leads(run: seq<State>, maxBytes: nat, end: nat, threads: nat, s: State) {
    && Run(run, maxBytes) && run[0].end == end && |run[0].threads| == threads && run[|run| - 1] == s
  }

  lemma Continue(run: seq<State>, maxBytes: nat, end: nat, threads: nat, s: State, a: Action, s': State)
    requires Leads(run, maxBytes, end, threads, s) && StepBy(s, s', a, maxBytes)
    ensures Leads(run + [s'], maxBytes, end, threads, s')
  {
    hide Init, StepBy;
    var r := run + [s'];
    forall k | 0 <= k < |r| - 1
      ensures Step(r[k], r[k + 1], maxBytes)
    {
      if k < |run| - 1 {
        assert Step(run[k], run[k + 1], maxBytes);
      }
    }
  }

  function AllIdle(threads: nat): seq<Thread> {
    seq(threads, i => Idle)
  }

  /** The threads from lo to hi are about to add their requests. */
  function Waiting(threads: nat, lo: nat, hi: nat, reqs: nat -> Request): seq<Thread> {
    seq(threads, i requires 0 <= i => if lo <= i < hi then Padded(reqs(i), 0) else Idle)
  }

  /** One thread fills the buffer block by block. */
  lemma {:induction false} Fill(end: nat, threads: nat, maxBytes: nat, k: nat) returns (run: seq<State>, log: seq<Outcome>)
    requires 0 < end < WORD && 0 < threads && 64 <= maxBytes && 64 * k <= LastStart(end)
    ensures Leads(run, maxBytes, end, threads, State(64 * k, end, AllIdle(threads), log))
  {
    hide Leads;
    if k == 0 {
      log := [];
      run := [State(0, end, AllIdle(threads), [])];
      LeadsStart(maxBytes, end, threads);
    } else {
      var log0;
      run, log0 := Fill(end, threads, maxBytes, k - 1);
      var req, idle := Request(64, 64), AllIdle(threads);
      var s := State(64 * (k - 1), end, idle, log0);
      var s1 := s.(threads := idle[0 := Tested(req)]);
      var s2 := s.(threads := idle[0 := Padded(req, 0)]);
      log := log0 + [Granted(64 * (k - 1), 64)];
      var s3 := State(64 * k, end, idle, log);
      NoPadding(s.cur, 64);
      assert s1.threads[0 := Padded(req, 0)] == s2.threads && s2.threads[0 := Idle] == idle;
      AddSmall(s2, s3, 0, Granted(64 * (k - 1), 64));
      Continue(run, maxBytes, end, threads, s, DoTest(0, req), s1);
      Continue(run + [s1], maxBytes, end, threads, s1, DoPad(0), s2);
      Continue(run + [s1] + [s2], maxBytes, end, threads, s2, DoAdd(0), s3);
      run := run + [s1] + [s2] + [s3];
    }
  }

  lemma LeadsStart(maxBytes: nat, end: nat, threads: nat)
    ensures Leads([State(0, end, AllIdle(threads), [])], maxBytes, end, threads, State(0, end, AllIdle(threads), []))
  {
  }

  /** A fetch-and-add that does not wrap. */
  lemma AddSmall(s: State, s': State, i: nat, o: Outcome)
    requires i < |s.threads| && s.threads[i].Padded? && s.threads[i].extra == 0
    requires var b := s.threads[i].req.bytes;
      s.cur + b < WORD && s'.cur == s.cur + b && o == if s.cur + b >= s.end then Refused else Granted(s.cur, b)
    requires s' == s.(cur := s'.cur, threads := s.threads[i := Idle], log := s.log + [o])
    ensures Add(s, s', i)
  {
    SmallMod(s.threads[i].req.bytes, WORD);
    SmallMod(s.cur + s.threads[i].req.bytes, WORD);
    SmallMod(s.cur, WORD);
  }

  /** The first n threads pass the test and compute their padding. */
  lemma {:induction false} Gather(run0: seq<State>, end: nat, threads: nat, maxBytes: nat, cur: nat, log: seq<Outcome>,
                                  reqs: nat -> Request, n: nat) returns (run: seq<State>)
    requires Leads(run0, maxBytes, end, threads, State(cur, end, AllIdle(threads), log))
    requires cur < end && cur % 64 == 0 && n <= threads
    requires forall i: nat :: i < n ==> reqs(i).Valid(maxBytes) && reqs(i).align == 64
    ensures Leads(run, maxBytes, end, threads, State(cur, end, Waiting(threads, 0, n, reqs), log))
  {
    hide Leads;
    if n == 0 {
      assert Waiting(threads, 0, 0, reqs) == AllIdle(threads);
      run := run0;
    } else {
      run := Gather(run0, end, threads, maxBytes, cur, log, reqs, n - 1);
      var i, w := n - 1, Waiting(threads, 0, n - 1, reqs);
      var s := State(cur, end, w, log);
      var s1 := s.(threads := w[i := Tested(reqs(i))]);
      var s2 := s.(threads := Waiting(threads, 0, n, reqs));
      NoPadding(cur, 64);
      assert s1.threads[i := Padded(reqs(i), 0)] == s2.threads;
      Continue(run, maxBytes, end, threads, s, DoTest(i, reqs(i)), s1);
      Continue(run + [s1], maxBytes, end, threads, s1, DoPad(i), s2);
      run := run + [s1] + [s2];
    }
  }

  /** The first j of the waiting threads add m bytes each. */
  lemma {:induction false} AddEach(run0: seq<State>, end: nat, threads: nat, maxBytes: nat, cur: nat, log0: seq<Outcome>,
                                   reqs: nat -> Request, n: nat, m: nat, j: nat) returns (run: seq<State>, log: seq<Outcome>)
    requires Leads(run0, maxBytes, end, threads, State(cur, end, Waiting(threads, 0, n, reqs), log0))
    requires j < n <= threads && cur + j * m < WORD
    requires forall i: nat :: i < j ==> reqs(i).bytes == m
    ensures Leads(run, maxBytes, end, threads, State(cur + j * m, end, Waiting(threads, j, n, reqs), log))
  {
    hide Leads;
    if j == 0 {
      run, log := run0, log0;
    } else {
      var i := j - 1;
      MulDistribute(i, m);
      var log1;
      run, log1 := AddEach(run0, end, threads, maxBytes, cur, log0, reqs, n, m, i);
      var s := State(cur + i * m, end, Waiting(threads, i, n, reqs), log1);
      var o := if cur + j * m >= end then Refused else Granted(s.cur, m);
      log := log1 + [o];
      var s1 := State(cur + j * m, end, Waiting(threads, j, n, reqs), log);
      assert s.threads[i := Idle] == s1.threads;
      AddSmall(s, s1, i, o);
      Continue(run, maxBytes, end, threads, s, DoAdd(i), s1);
      run := run + [s1];
    }
  }

  /** How many requests of m bytes it takes to get rest bytes further, and what
      the last one has to be. */
  lemma Portions(rest: nat, m: nat, threads: nat) returns (n: nat, last: nat)
    requires 0 < rest <= threads * m && 0 < m && rest % 64 == 0 && m % 64 == 0
    ensures 1 <= n <= threads && 0 < last <= m && last % 64 == 0 && (n - 1) * m + last == rest
  {
    if rest <= m {
      n, last := 1, rest;
      TimesZero(threads, m);
    } else {
      MulDistribute(threads - 1, m);
      n, last := Portions(rest - m, m, threads - 1);
      MulDistribute(n - 1, m);
      n := n + 1;
    }
  }

  lemma TimesZero(a: nat, b: nat)
    ensures a == 0 || b == 0 ==> a * b == 0
  {
  }

  /** Without room for one more request of every thread there is a run in which
      the counter wraps and a block outside the buffer is granted. */
  lemma WrapBreaks(end: nat, threads: nat, maxBytes: nat) returns (run: seq<State>)
    requires 0 < end < WORD && 0 < threads && maxBytes < WORD
    requires WORD <= LastStart(end) + threads * LargestRequest(maxBytes)
    ensures Run(run, maxBytes) && run[0].end == end && |run[0].threads| == threads
    ensures !Safe(run[|run| - 1])
  {
    hide Run, Safe;
    var c, m := LastStart(end), LargestRequest(maxBytes);
    TimesZero(threads, m);
    var n, last := Portions(WORD - c, m, threads);
    var reqs := (i: nat) => Request(if i < n - 1 then m else last, 64);
    var log, log1;
    run, log := Fill(end, threads, maxBytes, c / 64);
    run := Gather(run, end, threads, maxBytes, c, log, reqs, n);
    run, log1 := AddEach(run, end, threads, maxBytes, c, log, reqs, n, m, n - 1);
    var s := State(WORD - last, end, Waiting(threads, n - 1, n, reqs), log1);
    var s1 := State(0, end, s.threads[n - 1 := Idle], log1 + [Granted(WORD - last, last)]);
    Wraps(s, s1, n - 1);
    Continue(run, maxBytes, end, threads, s, DoAdd(n - 1), s1);
    run := run + [s1];
    Outside(s1, WORD - last, last);
  }

  lemma Wraps(s: State, s': State, i: nat)
    requires i < |s.threads| && s.threads[i].Padded? && s.threads[i].extra == 0 && 0 < s.end
    requires var b := s.threads[i].req.bytes;
      0 < b < WORD && s.cur + b == WORD
      && s' == State(0, s.end, s.threads[i := Idle], s.log + [Granted(s.cur, b)])
    ensures Add(s, s', i)
  {
    SmallMod(s.threads[i].req.bytes, WORD);
    SmallMod(s.cur, WORD);
  }

  lemma Outside(s: State, ofs: nat, bytes: nat)
    requires s.log != [] && s.log[|s.log| - 1] == Granted(ofs, bytes) && s.end <= ofs + bytes
    ensures !Safe(s)
  {
  }

  /** Every state of every run is safe. */
  ghost predicate AlwaysSafe(end: nat, threads: nat, maxBytes: nat) {
    forall run: seq<State> :: Run(run, maxBytes) && run[0].end == end && |run[0].threads| == threads ==>
      forall k :: 0 <= k < |run| ==> Safe(run[k])
  }

  /** The allocator is safe exactly when the last boundary and one request per
      thread stay below 2^64. */
  lemma SafeIff(end: nat, threads: nat, maxBytes: nat)
    requires 0 < end < WORD && 0 < threads && maxBytes < WORD
    ensures AlwaysSafe(end, threads, maxBytes) <==> LastStart(end) + threads * LargestRequest(maxBytes) < WORD
  {
    hide Safe, Run, LastStart, LargestRequest;
    if LastStart(end) + threads * LargestRequest(maxBytes) < WORD {
      forall run: seq<State>, k | Run(run, maxBytes) && 0 <= k < |run| && run[0].end == end && |run[0].threads| == threads
        ensures Safe(run[k])
      {
        EveryRunIsSafe(run, maxBytes, k);
      }
    } else {
      var run := WrapBreaks(end, threads, maxBytes);
      RunNonempty(run, maxBytes);
    }
  }

  lemma RunNonempty(run: seq<State>, maxBytes: nat)
    requires Run(run, maxBytes)
    ensures 0 < |run|
  {
  }

  /** The largest request of the builder: two blocks for each of six instances. */
  const BUILDER_REQUEST: nat := 768

  /** With the requests of the builder every buffer that ends a little below
      2^64 is safe, and one thread is enough to break the allocator in one that
      ends within 768 bytes of it. */
  lemma BuilderSafe(end: nat, threads: nat)
    requires 0 < end < WORD && 0 < threads
    ensures AlwaysSafe(end, threads, BUILDER_REQUEST) <==> LastStart(end) + 768 * threads < WORD
    ensures end <= WORD - 768 * threads ==> AlwaysSafe(end, threads, BUILDER_REQUEST)
    ensures WORD - 768 < end ==> !AlwaysSafe(end, threads, BUILDER_REQUEST)
  {
    hide AlwaysSafe;
    SafeIff(end, threads, BUILDER_REQUEST);
    assert LargestRequest(BUILDER_REQUEST) == 768;
    MulMono(1, threads, 768);
  }
}
