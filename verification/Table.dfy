/** The per-server slot table: expanded rows are XORed into worker-local tables, a dump folds the
    local tables together, and two dumps reveal the messages. */
module Table {
  import opened Modular
  import opened MulProof
  import opened Slots
  import opened Sketch

  /** One row written into a local table. */
  datatype Write = Write(row: nat, data: Bytes)

  ghost predicate WritesFit(len: nat, writes: seq<Write>) {
    forall k :: 0 <= k < |writes| ==> |writes[k].data| == len
  }

  /** The XOR of everything written to one row. */
  ghost function Accumulated(len: nat, writes: seq<Write>, row: nat): (acc: Bytes)
    requires WritesFit(len, writes)
    ensures |acc| == len
  {
    if writes == [] then Zeros(len) else
      var rest := Accumulated(len, writes[..|writes| - 1], row);
      var last := writes[|writes| - 1];
      if last.row == row then Xor(rest, last.data) else rest
  }

  lemma AccumulatedSnoc(len: nat, writes: seq<Write>, w: Write, row: nat)
    requires WritesFit(len, writes) && |w.data| == len
    ensures Accumulated(len, writes + [w], row) ==
            if w.row == row then Xor(Accumulated(len, writes, row), w.data) else Accumulated(len, writes, row)
  {
    assert (writes + [w])[..|writes|] == writes;
  }

  /** The writes of the first n rows of a query, in row order. */
  ghost function QueryWrites(s: Setup, q: InsertQuery, n: nat): (writes: seq<Write>)
    requires s.Valid() && QueryFits(s, q) && n <= s.height
    ensures |writes| == n && WritesFit(RowLength(s.width, s.slotLength), writes)
    ensures forall i :: 0 <= i < n ==> writes[i] == Write(i, ExpandedRow(s, q, i))
  {
    seq(n, i requires 0 <= i < n => Write(i, ExpandedRow(s, q, i)))
  }

  lemma QueryWritesSnoc(before: seq<Write>, s: Setup, q: InsertQuery, n: nat)
    requires s.Valid() && QueryFits(s, q) && n < s.height
    ensures (before + QueryWrites(s, q, n)) + [Write(n, ExpandedRow(s, q, n))] == before + QueryWrites(s, q, n + 1)
  {
  }

  /** The reduced sketch of the first n rows of a query. */
  function Reduced(s: Setup, squared: bool, isServerB: bool, hashKey: Bytes, challenge: Bytes, q: InsertQuery, n: nat): int
    requires s.Valid() && QueryFits(s, q) && n <= s.height
  {
    TableSketch(s, squared, isServerB, hashKey, challenge, q, n) % s.modulus
  }

  /** A running sketch with one row of a query added. */
  function WithRow(s: Setup, squared: bool, isServerB: bool, hashKey: Bytes, challenge: Bytes, q: InsertQuery, row: nat, z: int): int
    requires s.Valid() && QueryFits(s, q) && row < s.height
  {
    (z + RowSketch(s, squared, isServerB, hashKey, challenge, ExpandedRow(s, q, row), row, s.width)) % s.modulus
  }

  /** Reducing after every row gives the reduced sum of the rows. */
  lemma SketchOfOneMoreRow(s: Setup, squared: bool, isServerB: bool, hashKey: Bytes, challenge: Bytes, q: InsertQuery, n: nat)
    requires s.Valid() && QueryFits(s, q) && n < s.height
    ensures WithRow(s, squared, isServerB, hashKey, challenge, q, n, Reduced(s, squared, isServerB, hashKey, challenge, q, n)) ==
            Reduced(s, squared, isServerB, hashKey, challenge, q, n + 1)
  {
    ReducedSum(s.modulus, TableSketch(s, squared, isServerB, hashKey, challenge, q, n),
               RowSketch(s, squared, isServerB, hashKey, challenge, ExpandedRow(s, q, n), n, s.width));
  }

  /** Both reduced sketches of the first n rows of a query. */
  ghost predicate AreReduced(s: Setup, isServerB: bool, hashKey: Bytes, challenge: Bytes, q: InsertQuery, n: nat, z1: int, z2: int)
    requires s.Valid() && QueryFits(s, q) && n <= s.height
  {
    z1 == Reduced(s, false, isServerB, hashKey, challenge, q, n) && z2 == Reduced(s, true, isServerB, hashKey, challenge, q, n)
  }

  lemma BothSketchesOfOneMoreRow(s: Setup, isServerB: bool, hashKey: Bytes, challenge: Bytes, q: InsertQuery, n: nat, z1: int, z2: int)
    requires s.Valid() && QueryFits(s, q) && n < s.height && AreReduced(s, isServerB, hashKey, challenge, q, n, z1, z2)
    ensures AreReduced(s, isServerB, hashKey, challenge, q, n + 1,
                       WithRow(s, false, isServerB, hashKey, challenge, q, n, z1), WithRow(s, true, isServerB, hashKey, challenge, q, n, z2))
  {
    SketchOfOneMoreRow(s, false, isServerB, hashKey, challenge, q, n);
    SketchOfOneMoreRow(s, true, isServerB, hashKey, challenge, q, n);
  }

  lemma NoRowsYet(s: Setup, isServerB: bool, hashKey: Bytes, challenge: Bytes, q: InsertQuery)
    requires s.Valid() && QueryFits(s, q)
    ensures AreReduced(s, isServerB, hashKey, challenge, q, 0, 0, 0)
  {
  }

  /** The XOR of one row over the first n local tables. */
  ghost function FoldLocals(len: nat, locals: seq<seq<Bytes>>, row: nat, n: nat): (acc: Bytes)
    requires n <= |locals|
    requires forall t :: 0 <= t < |locals| ==> row < |locals[t]| && |locals[t][row]| == len
    ensures |acc| == len
  {
    if n == 0 then Zeros(len) else Xor(FoldLocals(len, locals, row, n - 1), locals[n - 1][row])
  }

  /** XORing data into one local table XORs it into the fold, whichever table was taken. */
  lemma {:induction false} FoldAfterWrite(len: nat, before: seq<seq<Bytes>>, after: seq<seq<Bytes>>,
                                          token: nat, row: nat, data: Bytes, n: nat)
    requires |after| == |before| && n <= |before| && token < |before| && |data| == len
    requires forall t :: 0 <= t < |before| ==> row < |before[t]| && |before[t][row]| == len
    requires forall t :: 0 <= t < |after| ==> row < |after[t]| && |after[t][row]| == len
    requires forall t :: 0 <= t < |before| ==>
               after[t][row] == if t == token then Xor(before[t][row], data) else before[t][row]
    ensures FoldLocals(len, after, row, n) ==
            if token < n then Xor(FoldLocals(len, before, row, n), data) else FoldLocals(len, before, row, n)
  {
    if n > 0 {
      FoldAfterWrite(len, before, after, token, row, data, n - 1);
      var f, l := FoldLocals(len, before, row, n - 1), before[n - 1][row];
      if token < n - 1 {
        XorAssociates(f, data, l);
        XorCommutes(data, l);
        XorAssociates(f, l, data);
      } else if token == n - 1 {
        XorAssociates(f, l, data);
      }
    }
  }

  lemma {:induction false} FoldUnchanged(len: nat, before: seq<seq<Bytes>>, after: seq<seq<Bytes>>, row: nat, n: nat)
    requires |after| == |before| && n <= |before|
    requires forall t :: 0 <= t < |before| ==> row < |before[t]| && |before[t][row]| == len
    requires forall t :: 0 <= t < |after| ==> row < |after[t]| && after[t][row] == before[t][row]
    ensures FoldLocals(len, after, row, n) == FoldLocals(len, before, row, n)
  {
    if n > 0 {
      FoldUnchanged(len, before, after, row, n - 1);
    }
  }

  /** After one row was XORed into one local table, the fold of every row is again what was written. */
  lemma FoldFollows(len: nat, before: seq<seq<Bytes>>, after: seq<seq<Bytes>>, token: nat, w: Write, history: seq<Write>, i: nat)
    requires |after| == |before| && token < |before| && |w.data| == len && WritesFit(len, history)
    requires forall t :: 0 <= t < |before| ==> i < |before[t]| && |before[t][i]| == len
    requires forall t :: 0 <= t < |after| ==> i < |after[t]| && |after[t][i]| == len
    requires forall t :: 0 <= t < |before| ==>
               after[t][i] == if t == token && i == w.row then Xor(before[t][i], w.data) else before[t][i]
    requires FoldLocals(len, before, i, |before|) == Accumulated(len, history, i)
    ensures FoldLocals(len, after, i, |before|) == Accumulated(len, history + [w], i)
  {
    AccumulatedSnoc(len, history, w, i);
    if i == w.row {
      FoldAfterWrite(len, before, after, token, i, w.data, |before|);
    } else {
      FoldUnchanged(len, before, after, i, |before|);
    }
  }

  class SlotTable {
    const s: Setup
    const workers: nat
    const table: array<Bytes>
    const localTables: array2<Bytes>
    var freeTables: seq<nat>
    /** The tokens of the rows in flight, each held by one goroutine. */
    ghost var taken: set<nat>
    /** Everything written since the table was created. */
    ghost var history: seq<Write>

    ghost function RowLen(): nat { RowLength(s.width, s.slotLength) }

    ghost function Locals(): (locals: seq<seq<Bytes>>)
      reads localTables
      ensures |locals| == localTables.Length0
      ensures forall t :: 0 <= t < |locals| ==> |locals[t]| == localTables.Length1
      ensures forall t, i :: 0 <= t < |locals| && 0 <= i < localTables.Length1 ==> locals[t][i] == localTables[t, i]
    {
      seq(localTables.Length0, t requires 0 <= t < localTables.Length0 reads localTables =>
        seq(localTables.Length1, i requires 0 <= i < localTables.Length1 reads localTables => localTables[t, i]))
    }

    ghost predicate Shaped()
      reads this, table, localTables
    {
      && s.Valid() && workers > 0
      && table.Length == s.height && localTables.Length0 == workers && localTables.Length1 == s.height
      && WritesFit(RowLen(), history)
      && (forall i :: 0 <= i < s.height ==> |table[i]| == RowLen())
      && (forall t, i :: 0 <= t < workers && 0 <= i < s.height ==> |localTables[t, i]| == RowLen())
    }

    /** Every token is either free, once, or held by exactly one row in flight. */
    ghost predicate TokensApart()
      reads this
    {
      && (forall j, k :: 0 <= j < k < |freeTables| ==> freeTables[j] != freeTables[k])
      && (forall k :: 0 <= k < |freeTables| ==> freeTables[k] < workers && freeTables[k] !in taken)
      && (forall t :: t in taken ==> t < workers)
      && |freeTables| + |taken| == workers
    }

    /** While rows are in flight: the tokens are apart, the shared table is zero, and the local tables
        together hold every write since creation. */
    ghost predicate Sound()
      reads this, table, localTables
    {
      && Shaped() && TokensApart()
      && (forall i :: 0 <= i < s.height ==> table[i] == Zeros(RowLen()))
      && (forall i :: 0 <= i < s.height ==>
            FoldLocals(RowLen(), Locals(), i, workers) == Accumulated(RowLen(), history, i))
    }

    /** Between calls no row is in flight. */
    ghost predicate Valid()
      reads this, table, localTables
    {
      Sound() && taken == {}
    }

    constructor (s: Setup, workers: nat)
      requires s.Valid() && workers > 0
      ensures Valid() && this.s == s && this.workers == workers && history == []
      ensures fresh(table) && fresh(localTables)
    {
      this.s := s;
      this.workers := workers;
      var zero := Zeros(RowLength(s.width, s.slotLength));
      table := new Bytes[s.height](i => zero);
      localTables := new Bytes[workers, s.height]((t, i) => zero);
      freeTables := seq(workers, i => i);
      taken := {};
      history := [];
      new;
      forall i | 0 <= i < s.height ensures FoldLocals(RowLen(), Locals(), i, workers) == Zeros(RowLen()) {
        FoldOfZeros(RowLen(), Locals(), i, workers);
      }
    }

    /** Takes a token out of the channel, which blocks while all are in use; other goroutines return theirs
        in any order, so any free one may come, and never one that is in use. */
    method TakeToken() returns (token: nat)
      requires Sound() && freeTables != []
      modifies `freeTables, `taken
      ensures Sound() && token < workers && token !in old(taken) && taken == old(taken) + {token}
    {
      var next :| 0 <= next < |freeTables|;
      token := freeTables[next];
      freeTables := freeTables[..next] + freeTables[next + 1..];
      taken := taken + {token};
    }

    /** XORs one expanded row into the local table of a token in use. */
    method XorIntoTaken(token: nat, row: nat, rowData: Bytes)
      requires Sound() && token in taken && row < s.height && |rowData| == RowLen()
      modifies `history, localTables
      ensures Sound()
      ensures history == old(history) + [Write(row, rowData)]
      ensures forall t, i :: 0 <= t < workers && 0 <= i < s.height && t != token ==> localTables[t, i] == old(localTables[t, i])
    {
      ghost var before := Locals();
      localTables[token, row] := Xor(localTables[token, row], rowData);
      history := history + [Write(row, rowData)];
      forall i | 0 <= i < s.height
        ensures FoldLocals(RowLen(), Locals(), i, workers) == Accumulated(RowLen(), history, i)
      {
        FoldFollows(RowLen(), before, Locals(), token, Write(row, rowData), old(history), i);
      }
    }

    method ReturnToken(token: nat)
      requires Sound() && token in taken
      modifies `freeTables, `taken
      ensures Sound() && taken == old(taken) - {token}
    {
      freeTables := freeTables + [token];
      taken := taken - {token};
    }

    /** Adds one expanded row to some local table that no other row in flight is using. */
    method XorIntoLocal(row: nat, rowData: Bytes)
      requires Sound() && freeTables != [] && row < s.height && |rowData| == RowLen()
      modifies this, localTables
      ensures Sound() && taken == old(taken)
      ensures history == old(history) + [Write(row, rowData)]
    {
      var token := TakeToken();
      XorIntoTaken(token, row, rowData);
      ReturnToken(token);
    }

    /** Expands one row of a query, updates the sketch, and adds the row to a local table. */
    method ExpandRow(q: InsertQuery, row: nat, isServerB: bool, hashKey: Bytes, challenge: Bytes, z1: int, z2: int)
      returns (z1': int, z2': int)
      requires Sound() && freeTables != [] && QueryFits(s, q) && row < s.height
      modifies this, localTables
      ensures Sound() && taken == old(taken)
      ensures history == old(history) + [Write(row, ExpandedRow(s, q, row))]
      ensures z1' == WithRow(s, false, isServerB, hashKey, challenge, q, row, z1)
      ensures z2' == WithRow(s, true, isServerB, hashKey, challenge, q, row, z2)
    {
      var rowData := s.prf(q.keys[row]);
      if q.keyMask[row] {
        rowData := Xor(rowData, q.messageMask);
      }
      z1', z2' := UpdateRowTestValues(s, rowData, row, isServerB, hashKey, challenge, z1, z2);
      XorIntoLocal(row, rowData);
    }

    method ProcessQuery(q: InsertQuery, isServerB: bool, hashKey: Bytes, challenge: Bytes) returns (z1: int, z2: int)
      requires Sound() && freeTables != [] && QueryFits(s, q)
      modifies this, localTables
      ensures Sound() && taken == old(taken)
      ensures history == old(history) + QueryWrites(s, q, s.height)
      ensures z1 == Reduced(s, false, isServerB, hashKey, challenge, q, s.height)
      ensures z2 == Reduced(s, true, isServerB, hashKey, challenge, q, s.height)
    {
      z1, z2 := 0, 0;
      NoRowsYet(s, isServerB, hashKey, challenge, q);
      for i := 0 to s.height
        invariant Sound() && taken == old(taken) && freeTables != []
        invariant history == old(history) + QueryWrites(s, q, i)
        invariant AreReduced(s, isServerB, hashKey, challenge, q, i, z1, z2)
      {
        BothSketchesOfOneMoreRow(s, isServerB, hashKey, challenge, q, i, z1, z2);
        QueryWritesSnoc(old(history), s, q, i);
        z1, z2 := ExpandRow(q, i, isServerB, hashKey, challenge, z1, z2);
      }
    }

    /** XORs one local table into the shared table. */
    method XorLocal(t: nat)
      requires Shaped() && t < workers
      modifies table
      ensures Shaped()
      ensures forall i :: 0 <= i < s.height ==> table[i] == Xor(old(table[i]), localTables[t, i])
    {
      for i := 0 to s.height
        invariant Shaped()
        invariant forall k :: 0 <= k < i ==> table[k] == Xor(old(table[k]), localTables[t, k])
        invariant forall k :: i <= k < s.height ==> table[k] == old(table[k])
      {
        table[i] := Xor(table[i], localTables[t, i]);
      }
    }

    /** Folds every local table into the shared table. */
    method FoldAll()
      requires Shaped()
      requires forall i :: 0 <= i < s.height ==> table[i] == Zeros(RowLen())
      modifies table
      ensures Shaped()
      ensures forall i :: 0 <= i < s.height ==> table[i] == FoldLocals(RowLen(), Locals(), i, workers)
    {
      for t := 0 to workers
        invariant Shaped()
        invariant forall i :: 0 <= i < s.height ==> table[i] == FoldLocals(RowLen(), Locals(), i, t)
      {
        XorLocal(t);
      }
    }

    /** Hands the shared table out and zeroes it. */
    method MoveOut(dest: array<Bytes>)
      requires Shaped() && dest.Length == s.height && dest != table
      modifies table, dest
      ensures Shaped()
      ensures forall i :: 0 <= i < s.height ==> dest[i] == old(table[i]) && table[i] == Zeros(RowLen())
    {
      for i := 0 to s.height
        invariant Shaped()
        invariant forall k :: 0 <= k < i ==> dest[k] == old(table[k]) && table[k] == Zeros(RowLen())
        invariant forall k :: i <= k < s.height ==> table[k] == old(table[k])
      {
        dest[i] := table[i];
        table[i] := Zeros(RowLength(s.width, s.slotLength));
      }
    }

    /** Takes every token, folds the local tables into the shared table, hands the result out and
        zeroes the shared table. The local tables are left as they are: a dump holds everything
        written since creation, not since the previous dump. */
    method CopyToAndClear(dest: array<Bytes>)
      requires Valid() && dest.Length == s.height && dest != table
      modifies this, table, dest
      ensures Valid() && history == old(history)
      ensures forall i :: 0 <= i < s.height ==> dest[i] == Accumulated(RowLen(), history, i)
    {
      for i := 0 to workers
        modifies `freeTables
        invariant |freeTables| == workers - i
      {
        freeTables := freeTables[1..];
      }
      FoldAll();
      MoveOut(dest);
      for i := 0 to workers
        modifies `freeTables
        invariant |freeTables| == i
        invariant forall k :: 0 <= k < i ==> freeTables[k] == k
      {
        freeTables := freeTables + [i];
      }
    }

    /** The server's reply to one upload: expand, sketch, and answer the two product checks. */
    method Prepare(isServerB: bool, t: Prepared, randomPoint: int)
      returns (outShare: int, ansShare1: AnsShare, ansShare2: AnsShare)
      requires Valid() && QueryFits(s, t.q1)
      modifies this, localTables
      ensures Valid()
      ensures history == old(history) + QueryWrites(s, t.q1, s.height)
      ensures outShare == OutShare(s, t)
      ensures ansShare1 == SquareAnswer(s, randomPoint, isServerB, t)
      ensures ansShare2 == ProductAnswer(s, randomPoint, isServerB, t)
    {
      outShare := t.q3.tShare1 - t.q3.tShare2;
      outShare := outShare % s.modulus;
      var zShare1, zShare2 := ProcessQuery(t.q1, isServerB, t.hashKey, t.challenge);
      ansShare1 := Query(s.modulus, randomPoint, t.q3.tProof1, zShare1, zShare1, t.q3.tShare1);
      ansShare2 := Query(s.modulus, randomPoint, t.q3.tProof2, t.msgShare, zShare2, t.q3.tShare2);
    }
  }

  lemma {:induction false} FoldOfZeros(len: nat, locals: seq<seq<Bytes>>, row: nat, n: nat)
    requires n <= |locals|
    requires forall t :: 0 <= t < |locals| ==> row < |locals[t]| && |locals[t][row]| == len
    requires forall t :: 0 <= t < |locals| ==> locals[t][row] == Zeros(len)
    ensures FoldLocals(len, locals, row, n) == Zeros(len)
  {
    if n > 0 {
      FoldOfZeros(len, locals, row, n - 1);
      XorZero(Zeros(len));
    }
  }

  lemma ReducedSum(p: int, total: int, part: int)
    requires p > 0
    ensures (total % p + part) % p == (total + part) % p
  {
    CongMod(total, p);
    CongAdd(total % p, total, part, part, p);
  }

  datatype PrepareReply = PrepareReply(outShare: int, ansShare1: AnsShare, ansShare2: AnsShare)

  ghost function ReplyOf(s: Setup, randomPoint: int, isServerB: bool, t: Prepared): PrepareReply
    requires s.Valid() && QueryFits(s, t.q1)
  {
    PrepareReply(OutShare(s, t), SquareAnswer(s, randomPoint, isServerB, t), ProductAnswer(s, randomPoint, isServerB, t))
  }

  /** The leader's fan-out for one upload: the same random point goes to both servers. */
  method SendPrepares(serverA: SlotTable, serverB: SlotTable, tA: Prepared, tB: Prepared)
    returns (randomPoint: int, replyA: PrepareReply, replyB: PrepareReply)
    requires serverA != serverB && serverA.localTables != serverB.localTables
    requires serverA.Valid() && serverB.Valid() && serverA.s == serverB.s
    requires QueryFits(serverA.s, tA.q1) && QueryFits(serverA.s, tB.q1)
    modifies serverA, serverA.localTables, serverB, serverB.localTables
    ensures serverA.Valid() && serverB.Valid()
    ensures serverA.history == old(serverA.history) + QueryWrites(serverA.s, tA.q1, serverA.s.height)
    ensures serverB.history == old(serverB.history) + QueryWrites(serverB.s, tB.q1, serverB.s.height)
    ensures replyA == ReplyOf(serverA.s, randomPoint, false, tA)
    ensures replyB == ReplyOf(serverB.s, randomPoint, true, tB)
  {
    randomPoint := RandInt(serverA.s.modulus);
    var outA, squareA, productA := serverA.Prepare(false, tA, randomPoint);
    var outB, squareB, productB := serverB.Prepare(true, tB, randomPoint);
    replyA := PrepareReply(outA, squareA, productA);
    replyB := PrepareReply(outB, squareB, productB);
  }

  /** The leader's verdicts on the two replies. The source only logs a failed check; the verdict it
      returns is always true. */
  method DecideReplies(p: int, replyA: PrepareReply, replyB: PrepareReply)
    returns (okay: bool, outOkay: bool, squareOkay: bool, productOkay: bool)
    requires p > 0
    ensures okay
    ensures outOkay <==> Cong(replyA.outShare + replyB.outShare, 0, p)
    ensures squareOkay <==> Accepts(p, [replyA.ansShare1, replyB.ansShare1])
    ensures productOkay <==> Accepts(p, [replyA.ansShare2, replyB.ansShare2])
  {
    var total := 0;
    total := total + replyA.outShare;
    total := total + replyB.outShare;
    total := total % p;
    outOkay := total == 0;
    squareOkay := Decide(p, [replyA.ansShare1, replyB.ansShare1]);
    productOkay := Decide(p, [replyA.ansShare2, replyB.ansShare2]);
    okay := true;
  }

  lemma VerdictsAreChecks(s: Setup, r: int, tA: Prepared, tB: Prepared, replyA: PrepareReply, replyB: PrepareReply)
    requires s.Valid() && QueryFits(s, tA.q1) && QueryFits(s, tB.q1)
    requires replyA == ReplyOf(s, r, false, tA) && replyB == ReplyOf(s, r, true, tB)
    ensures ChecksPass(s, r, tA, tB) <==>
            && Cong(replyA.outShare + replyB.outShare, 0, s.modulus)
            && Accepts(s.modulus, [replyA.ansShare1, replyB.ansShare1])
            && Accepts(s.modulus, [replyA.ansShare2, replyB.ansShare2])
  {
  }

  /** One upload on both servers: the tables receive the two halves, and the computed verdicts are
      exactly the three checks. */
  method SubmitPrepares(serverA: SlotTable, serverB: SlotTable, tA: Prepared, tB: Prepared)
    returns (okay: bool, allPassed: bool, randomPoint: int)
    requires serverA != serverB && serverA.localTables != serverB.localTables
    requires serverA.Valid() && serverB.Valid() && serverA.s == serverB.s
    requires QueryFits(serverA.s, tA.q1) && QueryFits(serverA.s, tB.q1)
    modifies serverA, serverA.localTables, serverB, serverB.localTables
    ensures okay
    ensures serverA.Valid() && serverB.Valid()
    ensures serverA.history == old(serverA.history) + QueryWrites(serverA.s, tA.q1, serverA.s.height)
    ensures serverB.history == old(serverB.history) + QueryWrites(serverB.s, tB.q1, serverB.s.height)
    ensures allPassed <==> ChecksPass(serverA.s, randomPoint, tA, tB)
  {
    var replyA, replyB;
    randomPoint, replyA, replyB := SendPrepares(serverA, serverB, tA, tB);
    VerdictsAreChecks(serverA.s, randomPoint, tA, tB, replyA, replyB);
    var outOkay, squareOkay, productOkay;
    okay, outOkay, squareOkay, productOkay := DecideReplies(serverA.s.modulus, replyA, replyB);
    allPassed := outOkay && squareOkay && productOkay;
  }

  /** XORs the two servers' dumps into the cleartext table. */
  method RevealCleartext(rowLen: nat, a: seq<Bytes>, b: seq<Bytes>) returns (plain: seq<Bytes>)
    requires |a| == |b|
    requires forall i :: 0 <= i < |a| ==> |a[i]| == rowLen && |b[i]| == rowLen
    ensures |plain| == |a| && forall i :: 0 <= i < |a| ==> plain[i] == Xor(a[i], b[i])
  {
    plain := seq(|a|, _ => Zeros(rowLen));
    for i := 0 to |a|
      invariant |plain| == |a|
      invariant forall k :: 0 <= k < i ==> plain[k] == a[k]
      invariant forall k :: i <= k < |a| ==> plain[k] == Zeros(rowLen)
    {
      XorZero(a[i]);
      plain := plain[i := Xor(plain[i], a[i])];
    }
    for i := 0 to |a|
      invariant |plain| == |a|
      invariant forall k :: 0 <= k < i ==> plain[k] == Xor(a[k], b[k])
      invariant forall k :: i <= k < |a| ==> plain[k] == a[k]
    {
      plain := plain[i := Xor(plain[i], b[i])];
    }
  }
}
