/** src/commands/output/ipc_cmd_output.{h,cpp} and `Cmd::output` of src/commands/cmd.h:
    the overwriting ring buffer that carries a command's output to the scheduler. */
module IpcCmdOutput {

  // ---------------------------------------------------------------- what a reader sees

  /** The bytes `get` returns after the stream `s` was appended to a cleared buffer of `n` bytes:
      byte k of the stream goes to slot k % n and overwrites what was there. */
  function Window(s: string, n: nat): (w: string)
    requires n > 0
    ensures |w| == if |s| <= n then |s| else n
    decreases s
  {
    if s == "" then ""
    else
      var k := |s| - 1;
      var w := Window(s[..k], n);
      if k < n then w + [s[k]] else w[k % n := s[k]]
  }

  lemma SmallMod(k: nat, n: nat)
    requires k < n
    ensures k % n == k
  {
  }

  /** One more byte joins, or overwrites the slot it falls on. */
  lemma WindowSnoc(s: string, c: char, n: nat)
    requires n > 0
    ensures |s| < n ==> Window(s + [c], n) == Window(s, n) + [c]
    ensures |s| >= n ==> Window(s + [c], n) == Window(s, n)[|s| % n := c]
  {
    assert (s + [c])[..|s|] == s;
  }

  lemma WindowPut(s: string, c: char, n: nat)
    requires n > 0
    ensures var w, w', slot := Window(s, n), Window(s + [c], n), |s| % n;
            && (|s| < n ==> slot == |s| && |w'| == |w| + 1)
            && (|s| >= n ==> |w'| == |w|)
            && slot < |w'| && w'[slot] == c
            && forall i :: 0 <= i < |w'| && i != slot ==> i < |w| && w'[i] == w[i]
  {
    WindowSnoc(s, c, n);
    if |s| < n { SmallMod(|s|, n); }
  }

  /** The last of the first `k` positions that falls on slot `i`. */
  function LastWrite(i: nat, k: nat, n: nat): (j: nat)
    requires i < n && i < k
    ensures j < k && j % n == i
    ensures forall m :: j < m < k ==> m % n != i
  {
    if (k - 1) % n == i then k - 1
    else
      SmallMod(i, n);
      assert k - 1 != i;
      LastWrite(i, k - 1, n)
  }

  /** Slot i of the result holds s[j] for the largest j < |s| with j = i modulo n. */
  lemma {:induction false} WindowByte(s: string, n: nat, i: nat)
    requires n > 0 && i < n && i < |s|
    ensures Window(s, n)[i] == s[LastWrite(i, |s|, n)]
    decreases s
  {
    var k := |s| - 1;
    var t := s[..k];
    if k < n { assert k % n == k; }
    if k % n != i {
      assert i < k;
      WindowByte(t, n, i);
      assert t[LastWrite(i, k, n)] == s[LastWrite(i, k, n)];
    }
  }

  /** Up to the capacity nothing is lost or moved. */
  lemma {:induction false} WindowExact(s: string, n: nat)
    requires n > 0 && |s| <= n
    ensures Window(s, n) == s
    decreases s
  {
    if s != "" {
      WindowExact(s[..|s| - 1], n);
    }
  }

  function LastN(s: string, n: nat): string {
    if |s| <= n then s else s[|s| - n..]
  }

  function Rotated(s: string, r: nat): string
    requires r <= |s|
  {
    s[|s| - r..] + s[..|s| - r]
  }

  lemma RotateStep(t: string, c: char, n: nat, r: nat)
    requires |t| == n && r < n
    ensures Rotated(t, r)[r := c]
         == if r + 1 == n then t[1..] + [c] else Rotated(t[1..] + [c], r + 1)
  {
    var k := n - r;
    assert Rotated(t, r)[r := c] == t[k..] + [c] + t[1..k];
    if r + 1 == n {
      assert t[1..k] == "";
    } else {
      var u := t[1..] + [c];
      assert u[k - 1..] == t[k..] + [c];
      assert u[..k - 1] == t[1..k];
    }
  }

  lemma NextResidue(k: nat, n: nat)
    requires n > 0
    ensures (k + 1) % n == if k % n + 1 == n then 0 else k % n + 1
  {
    var q, q', r' := k / n, (k + 1) / n, (k + 1) % n;
    assert n * (q' - q) == k % n + 1 - r' by {
      assert k == n * q + k % n;
      assert k + 1 == n * q' + r';
      Distribute(n, q', q);
    }
    NoMultiple(n, q' - q);
    NoMultiple(n, q' - q - 1);
    Distribute(n, q' - q, 1);
  }

  lemma Distribute(n: int, a: int, b: int)
    ensures n * (a - b) == n * a - n * b
  {
  }

  /** No multiple of n lies strictly between -n and n, except 0. */
  lemma NoMultiple(n: int, d: int)
    requires n > 0
    ensures d >= 1 ==> n * d >= n
    ensures d <= -1 ==> n * d <= -n
  {
    if d >= 1 {
      NonNegative(n, d - 1);
      Distribute(n, d, 1);
    }
    if d <= -1 {
      NonNegative(n, -1 - d);
      Distribute(n, -1, d);
    }
  }

  lemma NonNegative(n: int, d: int)
    requires n >= 0 && d >= 0
    ensures n * d >= 0
  {
  }

  lemma LastByte(s: string)
    requires s != ""
    ensures s[..|s| - 1] + [s[|s| - 1]] == s
  {
  }

  /** Past the capacity the reader gets the last n bytes rotated by |s| % n, because the read
      position does not move on overflow. */
  lemma {:induction false} WindowRotates(s: string, n: nat)
    requires n > 0 && n <= |s|
    ensures Window(s, n) == Rotated(LastN(s, n), |s| % n)
    decreases s
  {
    if |s| == n {
      WindowExact(s, n);
      NoRotation(s);
    } else {
      WindowRotates(s[..|s| - 1], n);
      RotatesOneMore(s[..|s| - 1], s[|s| - 1], n);
      LastByte(s);
    }
  }

  lemma RotatesOneMore(t: string, c: char, n: nat)
    requires n > 0 && n <= |t| && Window(t, n) == Rotated(LastN(t, n), |t| % n)
    ensures Window(t + [c], n) == Rotated(LastN(t + [c], n), |t + [c]| % n)
  {
    NextResidue(|t|, n);
    LastNSnoc(t, c, n);
    WindowSnoc(t, c, n);
    RotateOn(LastN(t, n), c, n, |t| % n, |t + [c]| % n);
  }

  lemma RotateOn(u: string, c: char, n: nat, r: nat, r': nat)
    requires |u| == n && r < n && r' == if r + 1 == n then 0 else r + 1
    ensures Rotated(u, r)[r := c] == Rotated(u[1..] + [c], r')
  {
    RotateStep(u, c, n, r);
    NoRotation(u[1..] + [c]);
  }

  lemma NoRotation(u: string)
    ensures Rotated(u, 0) == u
  {
  }

  lemma LastNSnoc(t: string, c: char, n: nat)
    requires 0 < n <= |t|
    ensures LastN(t + [c], n) == LastN(t, n)[1..] + [c]
  {
  }

  /** What `append` writes for a line. */
  function Bytes(line: string): string { line + "\n" }

  /** What `append` makes: nothing, or text that ends with a newline. */
  predicate Lines(s: string) {
    s == "" || s[|s| - 1] == '\n'
  }

  /** Every stream of lines of length k comes out as its last n bytes in order exactly when k does
      not pass the capacity or is a multiple of it; then every other string does so too. */
  lemma InOrderIff(k: nat, n: nat)
    requires n > 0
    ensures (forall s: string :: |s| == k && Lines(s) ==> Window(s, n) == LastN(s, n)) <==> k <= n || k % n == 0
    ensures k <= n || k % n == 0 ==> forall s: string :: |s| == k ==> Window(s, n) == LastN(s, n)
  {
    if k <= n {
      forall s: string | |s| == k ensures Window(s, n) == LastN(s, n) { WindowExact(s, n); }
    } else if k % n == 0 {
      forall s: string | |s| == k ensures Window(s, n) == LastN(s, n) {
        WindowRotates(s, n);
        NoRotation(LastN(s, n));
      }
    } else {
      var s := OutOfOrder(k, n);
      assert Lines(s);
    }
  }

  lemma OutOfOrder(k: nat, n: nat) returns (s: string)
    requires 0 < n < k && k % n != 0
    ensures |s| == k && Lines(s) && Window(s, n) != LastN(s, n)
  {
    s := seq(k, i requires 0 <= i < k => if i == k - 1 then '\n' else 'a');
    var u := LastN(s, n);
    WindowRotates(s, n);
    assert u[n - 1] == '\n';
    assert Rotated(u, k % n)[n - 1] == u[..n - k % n][n - k % n - 1] == u[n - k % n - 1] == 'a';
  }

  /** A line of two bytes through a buffer of two comes out behind its own newline. */
  lemma OverflowIsOutOfOrder()
    ensures Window(Bytes("ab"), 2) == "\nb" && LastN(Bytes("ab"), 2) == "b\n"
  {
    assert Bytes("ab") == "ab\n";
  }

  // ---------------------------------------------------------------- drains

  datatype Op = Append(line: string) | Drain

  /** Everything ever appended. */
  function Stream(ops: seq<Op>): string {
    if ops == [] then ""
    else
      var last := ops[|ops| - 1];
      Stream(ops[..|ops| - 1]) + if last.Append? then Bytes(last.line) else ""
  }

  /** What was appended since the last drain. */
  function Pending(ops: seq<Op>): string {
    if ops == [] then ""
    else
      match ops[|ops| - 1]
      case Append(line) => Pending(ops[..|ops| - 1]) + Bytes(line)
      case Drain => ""
  }

  /** The drained strings, one after the other. */
  function Drained(ops: seq<Op>, n: nat): string
    requires n > 0
  {
    if ops == [] then ""
    else
      var before := ops[..|ops| - 1];
      if ops[|ops| - 1].Drain? then Drained(before, n) + Window(Pending(before), n)
      else Drained(before, n)
  }

  /** At no time do more than n bytes wait for a drain. */
  ghost predicate NeverOverflows(ops: seq<Op>, n: nat) {
    ops == [] || (NeverOverflows(ops[..|ops| - 1], n) && |Pending(ops)| <= n)
  }

  lemma {:induction false} DrainsLoseNothing(ops: seq<Op>, n: nat)
    requires n > 0 && NeverOverflows(ops, n)
    ensures Drained(ops, n) + Pending(ops) == Stream(ops)
    ensures Window(Pending(ops), n) == Pending(ops)
    decreases ops
  {
    if ops != [] {
      var before := ops[..|ops| - 1];
      DrainsLoseNothing(before, n);
      WindowExact(Pending(ops), n);
      match ops[|ops| - 1]
      case Append(line) =>
        assert Drained(before, n) + (Pending(before) + Bytes(line))
            == Drained(before, n) + Pending(before) + Bytes(line);
      case Drain =>
        assert Stream(ops) == Stream(before) + "" == Stream(before);
        assert Drained(ops, n) + "" == Drained(ops, n);
    }
  }

  lemma {:induction false} DrainedLength(ops: seq<Op>, n: nat)
    requires n > 0
    ensures |Drained(ops, n)| + |Pending(ops)| <= |Stream(ops)|
    ensures !NeverOverflows(ops, n) ==> |Drained(ops, n)| + |Window(Pending(ops), n)| < |Stream(ops)|
    decreases ops
  {
    if ops != [] {
      DrainedLength(ops[..|ops| - 1], n);
    }
  }

  /** Over any interleaving of appends and drains, the drained strings followed by what a further
      drain would return are the appended stream exactly when it never overflowed. */
  lemma DrainsConserveIff(ops: seq<Op>, n: nat)
    requires n > 0
    ensures Drained(ops, n) + Window(Pending(ops), n) == Stream(ops) <==> NeverOverflows(ops, n)
  {
    if NeverOverflows(ops, n) { DrainsLoseNothing(ops, n); } else { DrainedLength(ops, n); }
  }

  lemma OneLineDrained(line: string, n: nat)
    requires n > 0
    ensures var ops := [Append(line), Drain];
            Stream(ops) == Bytes(line) && Pending(ops) == "" && Drained(ops, n) == Window(Bytes(line), n)
  {
    var first, ops := [Append(line)], [Append(line), Drain];
    assert ops[..1] == first && first[..0] == [];
    assert Pending(first) == "" + Bytes(line) == Bytes(line) && Drained(first, n) == "";
    assert Stream(first) == "" + Bytes(line) == Bytes(line);
  }

  /** One line too long for the buffer: a byte is lost and the rest is out of order. */
  lemma DrainLosesOutput()
    ensures var ops := [Append("ab"), Drain];
            Stream(ops) == Bytes("ab") && Drained(ops, 2) + Window(Pending(ops), 2) == "\nb"
  {
    OneLineDrained("ab", 2);
    OverflowIsOutOfOrder();
  }

  // ---------------------------------------------------------------- the buffer

  /** The array index of slot i for a reader that starts at `readPos`. */
  function SlotIndex(readPos: nat, i: nat, n: nat): (k: nat)
    requires readPos < n && i < n
    ensures k < n
  {
    if readPos + i < n then readPos + i else readPos + i - n
  }

  lemma SlotDistinct(readPos: nat, i: nat, j: nat, n: nat)
    requires readPos < n && i < n && j < n
    ensures SlotIndex(readPos, i, n) == SlotIndex(readPos, j, n) <==> i == j
  {
  }

  lemma NextSlot(readPos: nat, k: nat, n: nat)
    requires readPos < n
    ensures SlotIndex(readPos, (k + 1) % n, n)
         == if SlotIndex(readPos, k % n, n) + 1 >= n then 0 else SlotIndex(readPos, k % n, n) + 1
  {
    NextResidue(k, n);
  }

  /** The slots of `b`, read from `readPos`, hold `w`. */
  predicate Holds(b: seq<char>, readPos: nat, w: string, n: nat)
    requires readPos < n <= |b| && |w| <= n
  {
    forall i :: 0 <= i < |w| ==> b[SlotIndex(readPos, i, n)] == w[i]
  }

  lemma HoldsAfterPut(b: seq<char>, readPos: nat, s: string, c: char, n: nat)
    requires readPos < n <= |b| && Holds(b, readPos, Window(s, n), n)
    ensures Holds(b[SlotIndex(readPos, |s| % n, n) := c], readPos, Window(s + [c], n), n)
  {
    var slot, w' := |s| % n, Window(s + [c], n);
    var b' := b[SlotIndex(readPos, slot, n) := c];
    WindowPut(s, c, n);
    forall i | 0 <= i < |w'| ensures b'[SlotIndex(readPos, i, n)] == w'[i] {
      SlotDistinct(readPos, i, slot, n);
    }
  }

  class Buffer {
    const capacity: nat       // IPC_OUTPUT_BUFFER_SIZE
    const buf: array<char>    // m_buf, one byte longer than the capacity
    var readPos: nat
    var writePos: nat
    var readable: nat
    ghost var stream: string  // appended since the last clear

    ghost predicate Valid()
      reads this, buf
    {
      && capacity > 0 && buf.Length == capacity + 1
      && readPos < capacity
      && readable == |Window(stream, capacity)|
      && writePos == SlotIndex(readPos, |stream| % capacity, capacity)
      && Holds(buf[..], readPos, Window(stream, capacity), capacity)
    }

    constructor (capacity: nat)
      requires capacity > 0
      ensures Valid() && this.capacity == capacity && stream == "" && fresh(buf)
    {
      this.capacity := capacity;
      buf := new char[capacity + 1](_ => '\0');
      readPos, writePos, readable, stream := 0, 0, 0, "";
    }

    method Append(line: string)
      requires Valid()
      modifies this`writePos, this`readable, this`stream, buf
      ensures Valid() && stream == old(stream) + Bytes(line)
    {
      var chars := line + "\n";
      for i := 0 to |chars|
        invariant Valid() && stream == old(stream) + chars[..i]
      {
        Put(chars[i]);
        assert chars[..i] + [chars[i]] == chars[..i + 1];
      }
      assert chars[..|chars|] == chars;
    }

    /** The body of the loop of `append`. */
    method Put(c: char)
      requires Valid()
      modifies this`writePos, this`readable, this`stream, buf
      ensures Valid() && stream == old(stream) + [c]
    {
      ghost var before := buf[..];
      WindowPut(stream, c, capacity);
      NextSlot(readPos, |stream|, capacity);
      HoldsAfterPut(before, readPos, stream, c, capacity);

      buf[writePos] := c;
      assert buf[..] == before[writePos := c];
      writePos := writePos + 1;

      if readable < capacity {
        readable := readable + 1;
      }

      if writePos >= capacity {
        writePos := 0;
      }

      stream := stream + [c];
    }

    method Get() returns (r: string)
      requires Valid()
      ensures r == Window(stream, capacity)
    {
      var left := readable;
      var pos := readPos;
      ghost var w := Window(stream, capacity);
      r := "";
      while left > 0
        invariant 0 <= left && left + |r| == readable
        invariant r == w[..|r|]
        invariant pos == readPos + |r| || pos == readPos + |r| - capacity
        invariant 0 <= pos <= capacity
      {
        if pos >= capacity {
          pos := 0;
        }
        assert pos == SlotIndex(readPos, |r|, capacity);
        assert buf[pos] == w[|r|];
        r := r + [buf[pos]];
        pos := pos + 1;
        left := left - 1;
      }
    }

    method Clear()
      requires Valid()
      modifies this`readPos, this`readable, this`stream
      ensures Valid() && stream == ""
    {
      readable := 0;
      readPos := writePos;
      stream := "";
    }
  }

  /** `Cmd::output`: read, then clear. */
  method Output(output: Buffer) returns (r: string)
    requires output.Valid()
    modifies output
    ensures output.Valid() && output.stream == "" && r == Window(old(output.stream), output.capacity)
  {
    r := output.Get();
    output.Clear();
  }

  /** A command that appends and a scheduler that drains, in any order: the object goes through
      `Pending`, and the reader gets `Drained`. */
  method Serve(output: Buffer, ops: seq<Op>) returns (drained: string)
    requires output.Valid() && output.stream == ""
    modifies output, output.buf
    ensures output.Valid() && output.stream == Pending(ops) && drained == Drained(ops, output.capacity)
  {
    drained := "";
    for i := 0 to |ops|
      invariant output.Valid() && output.stream == Pending(ops[..i]) && drained == Drained(ops[..i], output.capacity)
    {
      assert ops[..i + 1][..i] == ops[..i];
      match ops[i]
      case Append(line) => output.Append(line);
      case Drain =>
        var part := Output(output);
        drained := drained + part;
    }
    assert ops[..|ops|] == ops;
  }
}
