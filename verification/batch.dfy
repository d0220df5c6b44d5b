/**
 The batch-selection half of the filestore flush (lib/filestore.js:44-69): how many
 queued entries one append takes, and how the taken entries are turned into the
 single string handed to the append primitive.

 `byteLength` stands for Node's `Buffer.byteLength`; it is a parameter, so every
 fact proved here holds whatever byte count the runtime reports.
 */
module Batch {

  /** The running total the flush loop keeps after taking the first `n` entries.
      The head entry is measured by its string length, every later one by
      `byteLength`: the loop starts from `queue[0].length` and adds byte lengths. */
  function Measured(queue: seq<string>, n: nat, byteLength: string -> nat): int
    requires 1 <= n <= |queue|
    decreases n
  {
    if n == 1 then |queue[0]|
    else Measured(queue, n - 1, byteLength) + byteLength(queue[n - 1])
  }

  /** Taking more entries never lowers the measured total. */
  lemma {:induction false} MeasuredMonotone(queue: seq<string>, i: nat, j: nat, byteLength: string -> nat)
    requires 1 <= i <= j <= |queue|
    ensures Measured(queue, i, byteLength) <= Measured(queue, j, byteLength)
    decreases j - i
  {
    if i < j {
      MeasuredMonotone(queue, i, j - 1, byteLength);
    }
  }

  /** `n` is a batch the flush loop can settle on: a non-empty prefix, within the
      budget unless it is the head entry alone, and stopped only where the next
      entry would take the total over the budget. */
  predicate IsBatch(queue: seq<string>, n: nat, bufferSize: int, byteLength: string -> nat)
  {
    && 1 <= n <= |queue|
    && (n > 1 ==> Measured(queue, n, byteLength) <= bufferSize)
    && (n < |queue| ==> Measured(queue, n, byteLength) + byteLength(queue[n]) > bufferSize)
  }

  /** The greedy loop from the point where it has taken `n` entries totalling `total`. */
  function SelectFrom(queue: seq<string>, n: nat, total: int, bufferSize: int, byteLength: string -> nat): (r: nat)
    requires 1 <= n <= |queue|
    requires total == Measured(queue, n, byteLength)
    requires n > 1 ==> total <= bufferSize
    ensures n <= r <= |queue|
    ensures IsBatch(queue, r, bufferSize, byteLength)
    decreases |queue| - n
  {
    if n < |queue| && total + byteLength(queue[n]) <= bufferSize then
      SelectFrom(queue, n + 1, total + byteLength(queue[n]), bufferSize, byteLength)
    else
      n
  }

  /** `numToAppend` as the flush computes it for a non-empty queue. */
  function SelectBatch(queue: seq<string>, bufferSize: int, byteLength: string -> nat): (n: nat)
    requires |queue| > 0
    ensures IsBatch(queue, n, bufferSize, byteLength)
  {
    SelectFrom(queue, 1, |queue[0]|, bufferSize, byteLength)
  }

  /** The flush loop itself, statement for statement: it computes the one batch
      `IsBatch` allows. */
  method SelectBatchLoop(queue: seq<string>, bufferSize: int, byteLength: string -> nat) returns (numToAppend: nat)
    requires |queue| > 0
    ensures IsBatch(queue, numToAppend, bufferSize, byteLength)
    ensures numToAppend == SelectBatch(queue, bufferSize, byteLength)
  {
    numToAppend := 1;
    var lengthOfAppend := |queue[0]|;
    while numToAppend < |queue| && lengthOfAppend + byteLength(queue[numToAppend]) <= bufferSize
      invariant 1 <= numToAppend <= |queue|
      invariant lengthOfAppend == Measured(queue, numToAppend, byteLength)
      invariant numToAppend > 1 ==> lengthOfAppend <= bufferSize
      decreases |queue| - numToAppend
    {
      lengthOfAppend := lengthOfAppend + byteLength(queue[numToAppend]);
      numToAppend := numToAppend + 1;
    }
    BatchUnique(queue, numToAppend, SelectBatch(queue, bufferSize, byteLength), bufferSize, byteLength);
  }

  /** The batch is determined by the queue, the budget and the byte measure. */
  lemma BatchUnique(queue: seq<string>, n1: nat, n2: nat, bufferSize: int, byteLength: string -> nat)
    requires IsBatch(queue, n1, bufferSize, byteLength)
    requires IsBatch(queue, n2, bufferSize, byteLength)
    ensures n1 == n2
  {
    if n1 < n2 {
      MeasuredMonotone(queue, n1 + 1, n2, byteLength);
    } else if n2 < n1 {
      MeasuredMonotone(queue, n2 + 1, n1, byteLength);
    }
  }

  /** Maximality: every longer prefix of the queue is over the budget. */
  lemma BatchMaximal(queue: seq<string>, n: nat, bufferSize: int, byteLength: string -> nat)
    requires IsBatch(queue, n, bufferSize, byteLength)
    ensures forall m :: n < m <= |queue| ==> Measured(queue, m, byteLength) > bufferSize
  {
    forall m | n < m <= |queue|
      ensures Measured(queue, m, byteLength) > bufferSize
    {
      MeasuredMonotone(queue, n + 1, m, byteLength);
    }
  }

  /** Every shorter prefix of more than one entry fits the budget too, so the
      loop never passes over a point where it should have stopped. */
  lemma BatchPrefixesFit(queue: seq<string>, n: nat, bufferSize: int, byteLength: string -> nat)
    requires IsBatch(queue, n, bufferSize, byteLength)
    ensures forall m :: 1 < m <= n ==> Measured(queue, m, byteLength) <= bufferSize
  {
    forall m | 1 < m <= n
      ensures Measured(queue, m, byteLength) <= bufferSize
    {
      MeasuredMonotone(queue, m, n, byteLength);
    }
  }

  /** A head entry longer than the budget is appended on its own. */
  lemma OversizedHeadAlone(queue: seq<string>, bufferSize: int, byteLength: string -> nat)
    requires |queue| > 0 && |queue[0]| > bufferSize
    ensures SelectBatch(queue, bufferSize, byteLength) == 1
  {
    var n := SelectBatch(queue, bufferSize, byteLength);
    if n > 1 {
      MeasuredMonotone(queue, 1, n, byteLength);
    }
  }

  /** When the whole queue fits the budget, one append takes all of it. */
  lemma WholeQueueFits(queue: seq<string>, bufferSize: int, byteLength: string -> nat)
    requires |queue| > 0 && Measured(queue, |queue|, byteLength) <= bufferSize
    ensures SelectBatch(queue, bufferSize, byteLength) == |queue|
  {
    var n := SelectBatch(queue, bufferSize, byteLength);
    if n < |queue| {
      MeasuredMonotone(queue, n + 1, |queue|, byteLength);
    }
  }

  /** `Array.prototype.join` with no argument: the entries separated by ",". */
  function Join(parts: seq<string>): string
    decreases |parts|
  {
    if |parts| == 0 then ""
    else if |parts| == 1 then parts[0]
    else parts[0] + "," + Join(parts[1..])
  }

  /** Total length of the entries, separators not counted. */
  function TotalLength(parts: seq<string>): nat
    decreases |parts|
  {
    if |parts| == 0 then 0 else |parts[0]| + TotalLength(parts[1..])
  }

  /** The joined string holds every entry plus one separator between neighbours. */
  lemma {:induction false} JoinLength(parts: seq<string>)
    requires |parts| > 0
    ensures |Join(parts)| == TotalLength(parts) + |parts| - 1
    decreases |parts|
  {
    if |parts| > 1 {
      JoinLength(parts[1..]);
    }
  }

  /** Cutting a string at every ",", the reading a consumer of the file would
      need to undo the separator. */
  function SplitOnComma(s: string): (parts: seq<string>)
    ensures |parts| > 0
    decreases |s|
  {
    if |s| == 0 then [""]
    else if s[0] == ',' then [""] + SplitOnComma(s[1..])
    else
      var rest := SplitOnComma(s[1..]);
      [[s[0]] + rest[0]] + rest[1..]
  }

  lemma {:induction false} SplitPlain(a: string)
    requires ',' !in a
    ensures SplitOnComma(a) == [a]
    decreases |a|
  {
    if |a| > 0 {
      assert ',' !in a[1..] by {
        forall k | 0 <= k < |a[1..]| ensures a[1..][k] != ',' { assert a[1..][k] == a[k + 1]; }
      }
      SplitPlain(a[1..]);
      assert [a[0]] + a[1..] == a;
    }
  }

  lemma {:induction false} SplitAfterPlain(a: string, b: string)
    requires ',' !in a
    ensures SplitOnComma(a + "," + b) == [a] + SplitOnComma(b)
    decreases |a|
  {
    if |a| == 0 {
      assert a + "," + b == [','] + b;
      assert ([','] + b)[1..] == b;
    } else {
      assert ',' !in a[1..] by {
        forall k | 0 <= k < |a[1..]| ensures a[1..][k] != ',' { assert a[1..][k] == a[k + 1]; }
      }
      SplitAfterPlain(a[1..], b);
      assert (a + "," + b)[1..] == a[1..] + "," + b;
      assert [a[0]] + a[1..] == a;
    }
  }

  /** Round trip: when no entry contains a comma, the batch can be read back
      from the appended string. */
  lemma {:induction false} SplitJoin(parts: seq<string>)
    requires |parts| > 0
    requires forall i :: 0 <= i < |parts| ==> ',' !in parts[i]
    ensures SplitOnComma(Join(parts)) == parts
    decreases |parts|
  {
    if |parts| == 1 {
      SplitPlain(parts[0]);
    } else {
      SplitAfterPlain(parts[0], Join(parts[1..]));
      SplitJoin(parts[1..]);
      assert [parts[0]] + parts[1..] == parts;
    }
  }
}
