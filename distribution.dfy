/**
 * The partitioning step of `distribute`: contiguous chunks of
 * `ceil(n / a)` records, one per agent in roster order, built by a loop
 * that pushes one distribution per agent whose chunk is non-empty.
 */
module Distribution {
  import opened Records

  /** The identifier of an agent document. */
  type AgentId = nat

  /** One document of the distribution store. */
  datatype Distribution = Distribution(agentId: AgentId, data: seq<Record>)

  /** `Math.ceil(n / a)` for a non-empty roster, on natural numbers. */
  function ChunkSize(n: nat, a: nat): (c: nat)
    requires a > 0
    ensures n <= c * a
    ensures c > 0 ==> (c - 1) * a < n
    ensures c == 0 <==> n == 0
  {
    var c := (n + a - 1) / a;
    assert n + a - 1 == c * a + (n + a - 1) % a;
    assert (c - 1) * a == c * a - a;
    c
  }

  function Min(x: int, y: int): int
  {
    if x <= y then x else y
  }

  /** `s.slice(lo, hi)` for non-negative bounds: both are clamped to the length. */
  function Slice<T>(s: seq<T>, lo: nat, hi: nat): (r: seq<T>)
    ensures |r| == if Min(hi, |s|) <= lo then 0 else Min(hi, |s|) - lo
    ensures lo < Min(hi, |s|) ==> r == s[lo..Min(hi, |s|)]
  {
    var lo' := Min(lo, |s|);
    var hi' := Min(hi, |s|);
    if hi' <= lo' then [] else s[lo'..hi']
  }

  /** The chunk of agent `i`: `records.slice(i * c, (i + 1) * c)`. */
  function Chunk(records: seq<Record>, c: nat, i: nat): seq<Record>
  {
    Slice(records, i * c, (i + 1) * c)
  }

  /** What iteration `i` of the loop pushes: nothing for an empty chunk. */
  function Step(records: seq<Record>, agentIds: seq<AgentId>, c: nat, i: nat): seq<Distribution>
    requires i < |agentIds|
  {
    var chunk := Chunk(records, c, i);
    if |chunk| > 0 then [Distribution(agentIds[i], chunk)] else []
  }

  /** The `distributions` array after the first `i` iterations. */
  function PlanUpTo(records: seq<Record>, agentIds: seq<AgentId>, c: nat, i: nat): seq<Distribution>
    requires i <= |agentIds|
  {
    if i == 0 then [] else PlanUpTo(records, agentIds, c, i - 1) + Step(records, agentIds, c, i - 1)
  }

  /** The distributions of one run over a non-empty roster. */
  function Plan(records: seq<Record>, agentIds: seq<AgentId>): seq<Distribution>
    requires |agentIds| > 0
  {
    PlanUpTo(records, agentIds, ChunkSize(|records|, |agentIds|), |agentIds|)
  }

  /** The loop of `distribute`: the chunk size and the distributions it pushes, in agent order. */
  method BuildDistributions(records: seq<Record>, agentIds: seq<AgentId>) returns (chunkSize: nat, distributions: seq<Distribution>)
    requires |agentIds| > 0
    ensures chunkSize == ChunkSize(|records|, |agentIds|)
    ensures distributions == Plan(records, agentIds)
  {
    chunkSize := (|records| + |agentIds| - 1) / |agentIds|;
    distributions := [];
    for i := 0 to |agentIds|
      invariant distributions == PlanUpTo(records, agentIds, chunkSize, i)
    {
      var chunk := Slice(records, i * chunkSize, (i + 1) * chunkSize);
      if |chunk| > 0 {
        distributions := distributions + [Distribution(agentIds[i], chunk)];
      }
    }
  }

  /** All records of the distributions, in order. */
  function Concat(ds: seq<Distribution>): seq<Record>
  {
    if ds == [] then [] else Concat(ds[..|ds| - 1]) + ds[|ds| - 1].data
  }

  /** Whether agent `i`'s chunk holds any record. */
  predicate Receives(n: nat, c: nat, i: nat)
  {
    c > 0 && i * c < n
  }

  lemma MulMono(j: nat, i: nat, c: nat)
    requires j <= i
    ensures j * c <= i * c
  {
    assert i * c == j * c + (i - j) * c;
  }

  lemma MulSucc(k: nat, c: nat)
    ensures (k + 1) * c == k * c + c
  {
  }

  lemma MulPred(i: nat, c: nat)
    requires i > 0
    ensures i * c == (i - 1) * c + c
  {
  }

  lemma ChunkNonEmpty(records: seq<Record>, c: nat, i: nat)
    ensures |Chunk(records, c, i)| > 0 <==> Receives(|records|, c, i)
    ensures Receives(|records|, c, i) ==> Chunk(records, c, i) == records[i * c..Min((i + 1) * c, |records|)]
  {
    assert (i + 1) * c == i * c + c;
  }

  /** The chunks that are non-empty are those of a prefix of the roster. */
  lemma ReceivesPrefix(n: nat, c: nat, j: nat, k: nat)
    requires j <= k && Receives(n, c, k)
    ensures Receives(n, c, j)
  {
    MulMono(j, k, c);
  }

  /**
   * The loop invariant of the partition: after `i` iterations the
   * distributions are those of the first agents whose chunks are
   * non-empty, in order, each with its own chunk.
   */
  lemma {:induction false} PlanUpToAgents(records: seq<Record>, agentIds: seq<AgentId>, c: nat, i: nat)
    requires i <= |agentIds|
    ensures var p := PlanUpTo(records, agentIds, c, i);
            && |p| <= i
            && (forall j :: 0 <= j < |p| ==> Receives(|records|, c, j) && p[j] == Distribution(agentIds[j], Chunk(records, c, j)))
            && (forall j :: 0 <= j < i ==> (Receives(|records|, c, j) <==> j < |p|))
  {
    if i > 0 {
      var k := i - 1;
      PlanUpToAgents(records, agentIds, c, k);
      var p := PlanUpTo(records, agentIds, c, k);
      ChunkNonEmpty(records, c, k);
      if Receives(|records|, c, k) {
        forall j | 0 <= j < k
          ensures Receives(|records|, c, j)
        {
          ReceivesPrefix(|records|, c, j, k);
        }
        if k > 0 {
          assert Receives(|records|, c, k - 1);
        }
        assert |p| == k;
      }
    }
  }

  lemma ConcatAppend(p: seq<Distribution>, d: Distribution)
    ensures Concat(p + [d]) == Concat(p) + d.data
  {
    assert (p + [d])[..|p|] == p;
  }

  /** After `i` iterations the distributions hold the first `min(i * c, n)` records, in order. */
  lemma {:induction false} PlanUpToConcat(records: seq<Record>, agentIds: seq<AgentId>, c: nat, i: nat)
    requires i <= |agentIds|
    ensures Concat(PlanUpTo(records, agentIds, c, i)) == records[..Min(i * c, |records|)]
  {
    ConcatUpTo(records, agentIds, c, i, i * c);
  }

  lemma {:induction false} ConcatUpTo(records: seq<Record>, agentIds: seq<AgentId>, c: nat, i: nat, hi: nat)
    requires i <= |agentIds| && hi == i * c
    ensures Concat(PlanUpTo(records, agentIds, c, i)) == records[..Min(hi, |records|)]
  {
    if i > 0 {
      var lo := (i - 1) * c;
      ConcatUpTo(records, agentIds, c, i - 1, lo);
      ConcatStep(records, agentIds, c, i, lo, hi);
    }
  }

  /** Iteration `i - 1` of the loop appends the records from `lo = (i - 1) * c` up to `min(hi, n)`. */
  lemma ConcatStep(records: seq<Record>, agentIds: seq<AgentId>, c: nat, i: nat, lo: nat, hi: nat)
    requires 0 < i <= |agentIds| && lo == (i - 1) * c && hi == i * c
    requires Concat(PlanUpTo(records, agentIds, c, i - 1)) == records[..Min(lo, |records|)]
    ensures Concat(PlanUpTo(records, agentIds, c, i)) == records[..Min(hi, |records|)]
  {
    MulPred(i, c);
    var p := PlanUpTo(records, agentIds, c, i - 1);
    StepAt(records, agentIds, c, i - 1, lo, hi);
    assert PlanUpTo(records, agentIds, c, i) == p + Step(records, agentIds, c, i - 1);
    AppendSlice(records, p, agentIds[i - 1], lo, hi);
  }

  lemma AppendSlice(records: seq<Record>, p: seq<Distribution>, a: AgentId, lo: nat, hi: nat)
    requires lo <= hi
    requires Concat(p) == records[..Min(lo, |records|)]
    ensures var step := if lo < Min(hi, |records|) then [Distribution(a, records[lo..Min(hi, |records|)])] else [];
            Concat(p + step) == records[..Min(hi, |records|)]
  {
    var n := |records|;
    if lo < Min(hi, n) {
      var d := Distribution(a, records[lo..Min(hi, n)]);
      ConcatAppend(p, d);
      assert records[..lo] + records[lo..Min(hi, n)] == records[..Min(hi, n)];
    } else {
      assert p + [] == p;
    }
  }

  /** What iteration `k` pushes, with its bounds given as `lo` and `hi`. */
  lemma StepAt(records: seq<Record>, agentIds: seq<AgentId>, c: nat, k: nat, lo: nat, hi: nat)
    requires k < |agentIds| && lo == k * c && hi == lo + c
    ensures Step(records, agentIds, c, k)
            == if lo < Min(hi, |records|) then [Distribution(agentIds[k], records[lo..Min(hi, |records|)])] else []
  {
    MulSucc(k, c);
    assert Chunk(records, c, k) == Slice(records, lo, hi);
  }

  /**
   * Distribution `j` belongs to agent `j` and holds the records
   * `records[j * c .. min((j + 1) * c, n))`, which is not empty; there
   * are at most as many distributions as agents.
   */
  predicate ChunkedInOrder(records: seq<Record>, agentIds: seq<AgentId>, c: nat, p: seq<Distribution>)
  {
    && |p| <= |agentIds|
    && forall j :: 0 <= j < |p| ==>
         p[j].agentId == agentIds[j]
         && j * c < j * c + c
         && j * c < |records|
         && p[j].data == records[j * c..Min(j * c + c, |records|)]
  }

  /** With `c = ceil(n / a)`, the distributions of a run are chunked in agent order. */
  lemma PlanAgents(records: seq<Record>, agentIds: seq<AgentId>)
    requires |agentIds| > 0
    ensures ChunkedInOrder(records, agentIds, ChunkSize(|records|, |agentIds|), Plan(records, agentIds))
  {
    var c := ChunkSize(|records|, |agentIds|);
    PlanUpToAgents(records, agentIds, c, |agentIds|);
    ChunkEntries(records, agentIds, c, Plan(records, agentIds));
  }

  /** Distributions that are the chunks of receiving agents are chunked in order. */
  lemma ChunkEntries(records: seq<Record>, agentIds: seq<AgentId>, c: nat, p: seq<Distribution>)
    requires |p| <= |agentIds|
    requires forall j :: 0 <= j < |p| ==> Receives(|records|, c, j) && p[j] == Distribution(agentIds[j], Chunk(records, c, j))
    ensures ChunkedInOrder(records, agentIds, c, p)
  {
    forall j | 0 <= j < |p|
      ensures p[j].agentId == agentIds[j]
              && j * c < j * c + c
              && j * c < |records|
              && p[j].data == records[j * c..Min(j * c + c, |records|)]
    {
      ReceivedChunk(records, c, j);
    }
  }

  /** A receiving agent's chunk runs from `j * c` for `c` records, cut at the end. */
  lemma ReceivedChunk(records: seq<Record>, c: nat, j: nat)
    requires Receives(|records|, c, j)
    ensures j * c < j * c + c && j * c < |records|
    ensures Chunk(records, c, j) == records[j * c..Min(j * c + c, |records|)]
  {
    MulSucc(j, c);
  }

  /** The agents after the last distribution have empty chunks and get no distribution. */
  lemma PlanTrailing(records: seq<Record>, agentIds: seq<AgentId>)
    requires |agentIds| > 0
    ensures var c := ChunkSize(|records|, |agentIds|);
            forall j :: |Plan(records, agentIds)| <= j < |agentIds| ==> Chunk(records, c, j) == []
  {
    var c := ChunkSize(|records|, |agentIds|);
    PlanUpToAgents(records, agentIds, c, |agentIds|);
    var p := Plan(records, agentIds);
    forall j | |p| <= j < |agentIds|
      ensures Chunk(records, c, j) == []
    {
      ChunkNonEmpty(records, c, j);
    }
  }

  /** Concatenating the distributions in agent order gives back the records: none lost, none repeated. */
  lemma PlanConcat(records: seq<Record>, agentIds: seq<AgentId>)
    requires |agentIds| > 0
    ensures Concat(Plan(records, agentIds)) == records
  {
    var c := ChunkSize(|records|, |agentIds|);
    PlanUpToConcat(records, agentIds, c, |agentIds|);
    assert Min(|agentIds| * c, |records|) == |records|;
  }

  /** Every distribution but the last holds exactly `c` records; the last holds between 1 and `c`. */
  lemma PlanSizes(records: seq<Record>, agentIds: seq<AgentId>)
    requires |agentIds| > 0
    ensures var c := ChunkSize(|records|, |agentIds|);
            var p := Plan(records, agentIds);
            && (forall j :: 0 <= j < |p| - 1 ==> |p[j].data| == c)
            && (forall j :: 0 <= j < |p| ==> 0 < |p[j].data| <= c)
  {
    var c := ChunkSize(|records|, |agentIds|);
    var n := |records|;
    PlanUpToAgents(records, agentIds, c, |agentIds|);
    var p := Plan(records, agentIds);
    forall j | 0 <= j < |p|
      ensures 0 < |p[j].data| <= c
      ensures j < |p| - 1 ==> |p[j].data| == c
    {
      ChunkNonEmpty(records, c, j);
      assert (j + 1) * c == j * c + c;
      if j < |p| - 1 {
        assert Receives(n, c, j + 1);
      }
    }
  }

  /** Five records over two agents: chunks of three, the second agent gets the last two. */
  lemma FiveRecordsTwoAgents(records: seq<Record>, a0: AgentId, a1: AgentId)
    requires |records| == 5
    ensures ChunkSize(5, 2) == 3
    ensures Plan(records, [a0, a1]) == [Distribution(a0, records[..3]), Distribution(a1, records[3..])]
  {
    var ids := [a0, a1];
    assert ChunkSize(5, 2) == 3;
    assert Chunk(records, 3, 0) == records[..3];
    assert Chunk(records, 3, 1) == records[3..];
    assert PlanUpTo(records, ids, 3, 1) == [Distribution(a0, records[..3])];
  }

  /** Two records over five agents: one record each for the first two agents, nothing for the rest. */
  lemma TwoRecordsFiveAgents(records: seq<Record>, ids: seq<AgentId>)
    requires |records| == 2 && |ids| == 5
    ensures ChunkSize(2, 5) == 1
    ensures Plan(records, ids) == [Distribution(ids[0], records[..1]), Distribution(ids[1], records[1..])]
  {
    assert ChunkSize(2, 5) == 1;
    assert Chunk(records, 1, 0) == records[..1];
    assert Chunk(records, 1, 1) == records[1..];
    assert Chunk(records, 1, 2) == [] && Chunk(records, 1, 3) == [] && Chunk(records, 1, 4) == [];
    var p := [Distribution(ids[0], records[..1]), Distribution(ids[1], records[1..])];
    assert PlanUpTo(records, ids, 1, 1) == [Distribution(ids[0], records[..1])];
    assert PlanUpTo(records, ids, 1, 2) == p;
    assert PlanUpTo(records, ids, 1, 3) == p;
    assert PlanUpTo(records, ids, 1, 4) == p;
  }

  /**
   * Seven records over five agents: chunks of two, so the fifth agent
   * gets no distribution even though there are more records than agents.
   */
  lemma SevenRecordsFiveAgents(records: seq<Record>, ids: seq<AgentId>)
    requires |records| == 7 && |ids| == 5
    ensures ChunkSize(7, 5) == 2
    ensures |Plan(records, ids)| == 4
    ensures Chunk(records, 2, 4) == []
  {
    assert ChunkSize(7, 5) == 2;
    assert |Chunk(records, 2, 0)| == 2 && |Chunk(records, 2, 1)| == 2 && |Chunk(records, 2, 2)| == 2;
    assert Chunk(records, 2, 3) == records[6..];
    assert Chunk(records, 2, 4) == [];
    assert |PlanUpTo(records, ids, 2, 1)| == 1;
    assert |PlanUpTo(records, ids, 2, 2)| == 2;
    assert |PlanUpTo(records, ids, 2, 3)| == 3;
    assert |PlanUpTo(records, ids, 2, 4)| == 4;
  }
}
