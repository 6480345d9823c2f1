/** The scanning loop that runs the automaton over received bytes. */
module HttpDriver {
  import opened Ast
  import opened HttpDfa

  /** Scanner registers: automaton row, Content-Length seen and its value, target bytes. */
  datatype Scanner = Scanner(row: nat, seen: bool, length: nat, path: nat)

  const FRESH := Scanner(START, false, 0, 0)

  const PATH_LIMIT := 256

  function Action(e: int, flag: int): bool
    requires flag > 0
  {
    (e / flag) % 2 == 1
  }

  /** Applies one nonzero table entry to the registers. */
  function Apply(d: Scanner, e: nat, b: Byte, capacity: nat): Option<Scanner> {
    var path := if Action(e, TARGET_FLAG) then d.path + 1 else d.path;
    var seen := Action(e, LENGTH_FLAG) || d.seen;
    var length: int := if Action(e, DIGIT_FLAG) then 10 * d.length + (b - 48) else d.length;
    if path > PATH_LIMIT || (Action(e, LENGTH_FLAG) && d.seen) || length > capacity || length < 0 then None
    else Some(Scanner(e % STATE_SIZE, seen, length, path))
  }

  function Step(d: Scanner, b: Byte, capacity: nat): Option<Scanner> {
    var e := Delta(d.row, b);
    if e <= 0 then None else Apply(d, e, b, capacity)
  }

  function Run(d: Option<Scanner>, s: Bytes, capacity: nat): Option<Scanner>
    decreases |s|
  {
    if d.None? || s == [] then d else Run(Step(d.value, s[0], capacity), s[1..], capacity)
  }

  lemma {:induction false} RunAppend(d: Option<Scanner>, s: Bytes, t: Bytes, capacity: nat)
    ensures Run(d, s + t, capacity) == Run(Run(d, s, capacity), t, capacity)
    decreases |s|
  {
    if s == [] {
      assert s + t == t;
    } else if d.Some? {
      RunAppend(Step(d.value, s[0], capacity), s[1..], t, capacity);
      assert (s + t)[1..] == s[1..] + t;
    }
  }

  datatype Frame = More | Complete(total: nat) | Invalid

  /** The verdict on what has been received: at most `capacity` bytes are ever
      read, and a request that fills them without completing fails. */
  function Verdict(d: Option<Scanner>, scanned: nat, have: nat, capacity: nat): Frame {
    if d.None? then Invalid
    else if d.value.row == DONE then
      var total := scanned + d.value.length;
      if total > capacity then Invalid else if have >= total then Complete(total) else More
    else if have >= capacity then Invalid
    else More
  }

  /** Scans until the automaton rejects, finishes or the bytes run out. */
  function Scan(d: Option<Scanner>, s: Bytes, i: nat, capacity: nat): (r: (Option<Scanner>, nat))
    requires i <= |s|
    ensures i <= r.1 <= |s|
    decreases |s| - i
  {
    if d.None? || d.value.row == DONE || i == |s| then (d, i)
    else Scan(Step(d.value, s[i], capacity), s, i + 1, capacity)
  }

  function Received(data: Bytes, capacity: nat): Bytes {
    if |data| <= capacity then data else data[..capacity]
  }

  function Drive(data: Bytes, capacity: nat): Frame {
    var s := Received(data, capacity);
    var (d, n) := Scan(Some(FRESH), s, 0, capacity);
    Verdict(d, n, |s|, capacity)
  }

  /** Table lookups stay inside the table. */
  lemma StepInTable(d: Scanner, b: Byte, capacity: nat)
    requires d.row < ROWS
    ensures var r := Step(d, b, capacity); r.Some? ==> r.value.row < ROWS
  {
  }

  // ----- receiving in pieces -----

  /** What is decided after `data` when `chunks` are what the next receives return;
      an empty one is the end of the connection. */
  function Session(data: Bytes, chunks: seq<Bytes>, capacity: nat): Frame
    decreases |chunks|
  {
    var f := Drive(data, capacity);
    if !f.More? || chunks == [] then f
    else if chunks[0] == [] then Invalid
    else Session(data + chunks[0], chunks[1..], capacity)
  }

  function Joined(chunks: seq<Bytes>): Bytes {
    if chunks == [] then [] else chunks[0] + Joined(chunks[1..])
  }

  /** The registers stand where a scan of everything received would have them. */
  ghost predicate Caught(d: Scanner, have: Bytes, scan: nat, capacity: nat) {
    && d.row < ROWS && scan <= |have|
    && Scan(Some(d), have, scan, capacity) == Scan(Some(FRESH), have, 0, capacity)
  }

  /** The receive loop on the constructed table. Each receive takes what fits the
      buffer; the header is scanned once, and then only the length counts. */
  method Receive(t: Table, chunks: seq<Bytes>, capacity: nat) returns (f: Frame)
    requires |t| == ROWS && forall s, b: Byte {:trigger t[s][b]} | 0 <= s < ROWS :: t[s][b] == Delta(s, b)
    ensures f == Session([], chunks, capacity)
  {
    var have: Bytes := [];
    var d := FRESH;
    var scan: nat, total: nat := 0, 0;
    ghost var data: Bytes := [];
    var next := 0;
    while |have| < capacity
      invariant next <= |chunks| && Session(data, chunks[next..], capacity) == Session([], chunks, capacity)
      invariant have == Received(data, capacity) && Caught(d, have, scan, capacity)
      invariant if total == 0 then d.row != DONE && scan == |have| else d.row == DONE && |have| < total <= capacity
      invariant total != 0 ==> total == scan + d.length
      decreases |chunks| - next
    {
      DriveCaught(d, data, have, scan, capacity);
      if next == |chunks| {
        return More;
      }
      var chunk := chunks[next];
      assert chunks[next..][0] == chunk && chunks[next..][1..] == chunks[next + 1..];
      next := next + 1;
      if chunk == [] {
        return Invalid;
      }
      var room := capacity - |have|;
      var taken := if |chunk| <= room then chunk else chunk[..room];
      CaughtMore(d, have, scan, have + taken, capacity);
      data := data + chunk;
      have := have + taken;
      assert have == Received(data, capacity);
      if total == 0 {
        d, scan, f := ScanOn(t, d, have, scan, capacity);
        if f.Invalid? {
          return Invalid;
        }
        DriveCaught(d, data, have, scan, capacity);
        if d.row == DONE {
          total := scan + d.length;
          if total > capacity {
            return Invalid;
          }
        }
      }
      if total != 0 && |have| >= total {
        DriveCaught(d, data, have, scan, capacity);
        return Complete(total);
      }
    }
    DriveCaught(d, data, have, scan, capacity);
    f := Invalid;
  }

  lemma DriveCaught(d: Scanner, data: Bytes, have: Bytes, scan: nat, capacity: nat)
    requires have == Received(data, capacity) && Caught(d, have, scan, capacity) && (d.row == DONE || scan == |have|)
    ensures Drive(data, capacity) == Verdict(Some(d), scan, |have|, capacity)
  {
  }

  /** The scanning loop over the bytes received since the last one. */
  method ScanOn(t: Table, d: Scanner, have: Bytes, scan: nat, capacity: nat) returns (d': Scanner, scan': nat, f: Frame)
    requires |t| == ROWS && forall s, b: Byte {:trigger t[s][b]} | 0 <= s < ROWS :: t[s][b] == Delta(s, b)
    requires Caught(d, have, scan, capacity)
    ensures f.Invalid? ==> Scan(Some(FRESH), have, 0, capacity).0 == None
    ensures !f.Invalid? ==> Caught(d', have, scan', capacity) && (d'.row == DONE || scan' == |have|)
  {
    d', scan', f := d, scan, More;
    while scan' < |have| && d'.row != DONE
      invariant Caught(d', have, scan', capacity)
    {
      var b := have[scan'];
      var e := t[d'.row][b];
      StepInTable(d', b, capacity);
      scan' := scan' + 1;
      if e == 0 {
        assert Step(d', b, capacity) == None && Scan(None, have, scan', capacity).0 == None;
        return d', scan', Invalid;
      }
      assert e > 0;
      var next := Apply(d', e, b, capacity);
      if next.None? {
        return d', scan', Invalid;
      }
      d' := next.value;
    }
  }

  lemma CaughtMore(d: Scanner, s: Bytes, i: nat, t: Bytes, capacity: nat)
    requires Caught(d, s, i, capacity) && s <= t && (d.row == DONE || i == |s|)
    ensures Caught(d, t, i, capacity)
  {
    ScanLonger(Some(FRESH), s, t, 0, capacity);
  }

  /** A scan of more bytes goes on from where the scan of fewer stopped. */
  lemma {:induction false} ScanLonger(d: Option<Scanner>, s: Bytes, t: Bytes, i: nat, capacity: nat)
    requires s <= t && i <= |s|
    ensures var (e, n) := Scan(d, s, i, capacity); Scan(d, t, i, capacity) == Scan(e, t, n, capacity)
    decreases |s| - i
  {
    if d.Some? && d.value.row != DONE && i < |s| {
      assert s[i] == t[i];
      ScanLonger(Step(d.value, s[i], capacity), s, t, i + 1, capacity);
    }
  }

  /** Once decided, a request stays decided: later bytes change nothing. */
  lemma VerdictStays(data: Bytes, more: Bytes, capacity: nat)
    requires !Drive(data, capacity).More?
    ensures Drive(data + more, capacity) == Drive(data, capacity)
  {
    var s, t := Received(data, capacity), Received(data + more, capacity);
    if |data| >= capacity {
      assert s == t;
    } else {
      assert s <= t;
      ScanLonger(Some(FRESH), s, t, 0, capacity);
      ScanIsRun(Some(FRESH), s, 0, capacity);
    }
  }

  /** However a request is cut into receives, the verdict is that of its bytes. */
  lemma {:induction false} AnySplit(data: Bytes, chunks: seq<Bytes>, capacity: nat)
    requires forall i | 0 <= i < |chunks| :: chunks[i] != []
    ensures Session(data, chunks, capacity) == Drive(data + Joined(chunks), capacity)
    decreases |chunks|
  {
    if chunks == [] {
      assert data + [] == data;
    } else if !Drive(data, capacity).More? {
      VerdictStays(data, Joined(chunks), capacity);
    } else {
      AnySplit(data + chunks[0], chunks[1..], capacity);
      assert data + chunks[0] + Joined(chunks[1..]) == data + Joined(chunks);
    }
  }

  /** A connection that ends is refused unless the request was decided before. */
  lemma {:induction false} EndedEarly(data: Bytes, chunks: seq<Bytes>, rest: seq<Bytes>, capacity: nat)
    requires forall i | 0 <= i < |chunks| :: chunks[i] != []
    ensures var f := Drive(data + Joined(chunks), capacity);
      Session(data, chunks + [[]] + rest, capacity) == if f.More? then Invalid else f
    decreases |chunks|
  {
    var all := chunks + [[]] + rest;
    if chunks == [] {
      assert data + [] == data && all[0] == [];
    } else {
      assert all[0] == chunks[0] && all[1..] == chunks[1..] + [[]] + rest;
      assert data + chunks[0] + Joined(chunks[1..]) == data + Joined(chunks);
      if Drive(data, capacity).More? {
        EndedEarly(data + chunks[0], chunks[1..], rest, capacity);
      } else {
        VerdictStays(data, Joined(chunks), capacity);
      }
    }
  }

  // ----- scanning and running -----

  /** A scan either runs over everything without finishing, or stops where the
      run first finishes or rejects; past that the run is rejected. */
  lemma {:induction false} ScanIsRun(d: Option<Scanner>, s: Bytes, i: nat, capacity: nat)
    requires i <= |s|
    ensures var (e, n) := Scan(d, s, i, capacity);
      && (e.Some? ==> e == Run(d, s[i..n], capacity))
      && (e.None? ==> Run(d, s[i..], capacity) == None)
      && (e.Some? && e.value.row != DONE ==> n == |s|)
    decreases |s| - i
  {
    if d.None? || d.value.row == DONE || i == |s| {
    } else {
      var d' := Step(d.value, s[i], capacity);
      ScanIsRun(d', s, i + 1, capacity);
      var (e, n) := Scan(d', s, i + 1, capacity);
      assert s[i..n][1..] == s[i + 1..n] && s[i..][1..] == s[i + 1..];
    }
  }

  lemma DoneIsFinal(d: Scanner, s: Bytes, capacity: nat)
    requires d.row == DONE && s != []
    ensures Run(Some(d), s, capacity) == None
  {
    assert Step(d, s[0], capacity) == None;
  }
}
