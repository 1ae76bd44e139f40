/** The index agreement at one node (src/indexacs/handler.go and src/indexvaba/handler.go): which
    indices it accepts, the votes it has seen in each view, and what it hands on. One epoch. */
module Vaba {
  import opened Wrappers
  import opened Sets
  import opened Quorum
  import opened Frequency

  /** The payload of the first broadcast of a view: an index and the votes that justify it. */
  datatype Prejustify = Prejustify(pre: int, justify: Votes)

  /** A vector is modelled by the set of its positions that hold 1. `accepted[v]` are the proposals of
      view v and `table[v]` the votes of view v that the node has admitted. `llock` says that the lock
      around proposals was taken and not released. */
  datatype State = State(
    id: int,
    n: nat,
    completed: set<int>,
    firstpre: Option<int>,
    valid: set<int>,
    started: bool,
    igvalid: set<int>,
    view: nat,
    accepted: Counter<int>,
    llock: bool,
    table: map<int, Votes>,
    ra: Option<int>,
    decided: Option<int>,
    output: Option<seq<int>>)

  function Initial(id: int, n: nat): State {
    State(id, n, {}, None, {}, false, {}, 0, map[], false, map[], None, None, None)
  }

  function VotesAt(table: map<int, Votes>, v: int): Votes {
    if v in table then table[v] else map[]
  }

  function Ones(vec: seq<int>): set<int> {
    set i | 0 <= i < |vec| && vec[i] == 1
  }

  // ------------------------------------------------ the steps as functions

  /** One pass of MonitorRBC2Status over the delivered vector of node i. */
  function AcceptIndex(s: State, i: int, vec: seq<int>): State {
    if Ones(vec) <= s.completed && |Ones(vec)| >= Q(s.n)
    then s.(firstpre := if s.firstpre == None then Some(i) else s.firstpre, valid := s.valid + {i})
    else s
  }

  /** Every entry of the justification is a vote that the node has admitted itself. */
  ghost predicate JustifiedBy(justify: Votes, v: int, table: map<int, Votes>) {
    forall i :: i in justify ==> justify[i] == Recorded(table, v, i)
  }

  /** The vote admitted from node i, or -1. */
  function Recorded(table: map<int, Votes>, v: int, i: int): int {
    if i in VotesAt(table, v) then VotesAt(table, v)[i] else -1
  }

  ghost predicate Acceptable(s: State, v: int, p: Prejustify) {
    p.pre in s.valid && (v - 1 != -1 ==> JustifiedBy(p.justify, v - 1, s.table))
  }

  /** The test of views 2 and later, made with the lock held. */
  ghost predicate FrequentEnough(n: nat, v: int, p: Prejustify) {
    v > 1 ==> |p.justify| >= Q(n) && MostFrequent(p.justify, p.pre)
  }

  /** One pass of MonitorRBC3Status over the delivered proposal of node i. A proposal that fails the
      second test is passed over without releasing the lock. */
  ghost function AcceptPre(s: State, v: int, i: int, p: Prejustify): State {
    if !Acceptable(s, v, p) then s
    else if !FrequentEnough(s.n, v, p) then s.(llock := true)
    else s.(accepted := Insert(s.accepted, v, i), igvalid := s.igvalid + {i})
  }

  /** One pass of MonitorRBC4Status over the delivered vote of node i. */
  function AcceptVote(s: State, v: int, i: int, vote: int): State {
    if vote in s.igvalid then s.(table := s.table[v := VotesAt(s.table, v)[i := vote]]) else s
  }

  /** The result of a gather is ranked, and its highest index is the one whose proposal is voted for. */
  ghost predicate Highest(val: seq<int>, l: int) {
    l in val && forall i :: i in val ==> i <= l
  }

  predicate Bits(vec: seq<int>) {
    forall i :: 0 <= i < |vec| ==> vec[i] == 0 || vec[i] == 1
  }

  // ------------------------------------------------------------- the node

  class VabaNode {
    const id: int
    const n: nat
    var completed: seq<int>
    var firstpre: Option<int>
    var valid: seq<int>
    var started: bool
    var igvalid: seq<int>
    var view: nat
    var accepted: Counter<int>
    var llock: bool
    var M: map<int, Votes>
    var ra: Option<int>
    var decided: Option<int>
    var output: Option<seq<int>>

    ghost predicate Valid()
      reads this
    {
      && |completed| == |valid| == |igvalid| == n
      && Bits(completed)
    }

    ghost function View(): State
      reads this
    {
      State(id, n, Ones(completed), firstpre, Ones(valid), started, Ones(igvalid), view, accepted, llock, M, ra, decided, output)
    }

    constructor Init(thisid: int, numNodes: nat)
      ensures Valid() && View() == Initial(thisid, numNodes)
    {
      id, n := thisid, numNodes;
      completed, valid, igvalid := seq(numNodes, _ => 0), seq(numNodes, _ => 0), seq(numNodes, _ => 0);
      firstpre, started, view, accepted, llock, M := None, false, 0, map[], false, map[];
      ra, decided, output := None, None, None;
      new;
      assert Ones(seq(numNodes, _ => 0)) == {};
    }

    /** The layer above reports which broadcasts have completed. */
    method UpdateList(input: seq<int>)
      requires Valid() && |input| <= n && Bits(input)
      modifies this`completed
      ensures Valid() && completed == input + old(completed)[|input|..]
    {
      for i := 0 to |input|
        invariant Valid()
        invariant forall j :: 0 <= j < i ==> completed[j] == input[j]
        invariant forall j :: i <= j < n ==> completed[j] == old(completed)[j]
      {
        completed := completed[i := input[i]];
      }
    }

    method Ifinclude(vec: seq<int>) returns (b: bool)
      requires Valid() && |vec| <= n
      ensures b <==> forall i :: 0 <= i < |vec| && vec[i] == 1 ==> completed[i] != 0
    {
      for i := 0 to |vec|
        invariant forall j :: 0 <= j < i && vec[j] == 1 ==> completed[j] != 0
      {
        if vec[i] == 1 && completed[i] == 0 {
          return false;
        }
      }
      return true;
    }

    method Number1count(vec: seq<int>) returns (count: nat)
      ensures count == |Ones(vec)|
    {
      count := 0;
      for i := 0 to |vec|
        invariant count == |Ones(vec[..i])|
      {
        OnesExtend(vec, i);
        if vec[i] == 1 {
          count := count + 1;
        }
      }
      assert vec[..|vec|] == vec;
    }

    method IfincludeJustify(justify: Votes, v: int) returns (b: bool)
      ensures b <==> v == -1 || JustifiedBy(justify, v, M)
    {
      if v == -1 {
        return true;
      }
      var todo := justify.Keys;
      while todo != {}
        invariant todo <= justify.Keys
        invariant forall i :: i in justify && i !in todo ==> justify[i] == Recorded(M, v, i)
        decreases |todo|
      {
        var key := Pick(todo);
        if justify[key] != Recorded(M, v, key) {
          return false;
        }
        todo := todo - {key};
      }
      return true;
    }

    /** The body of MonitorRBC2Status for a delivered vector. */
    method OnIndex(i: int, vec: seq<int>)
      requires Valid() && 0 <= i < n && |vec| <= n
      modifies this`firstpre, this`valid
      ensures Valid() && View() == AcceptIndex(old(View()), i, vec)
    {
      var included := Ifinclude(vec);
      assert included <==> Ones(vec) <= Ones(completed) by {
        IncludedOnes(vec, completed);
      }
      var count := Number1count(vec);
      if included && count >= Q(n) {
        if firstpre == None {
          firstpre := Some(i);
        }
        OnesSet(valid, i);
        valid := valid[i := 1];
      }
    }

    /** The body of MonitorRBC3Status for a delivered proposal, which needs the lock. */
    method OnPre(v: nat, i: int, p: Prejustify)
      requires Valid() && 0 <= i < n && 0 <= p.pre < n && !llock
      modifies this`accepted, this`igvalid, this`llock
      ensures Valid() && View() == AcceptPre(old(View()), v, i, p)
    {
      var justified := IfincludeJustify(p.justify, v - 1);
      if valid[p.pre] == 1 && justified {
        llock := true;
        if v > 1 {
          var frequent := Isfrequent(p.pre, p.justify);
          if |p.justify| < Q(n) || !frequent {
            return;
          }
        }
        Admit(v, i);
        llock := false;
      }
    }

    method Admit(v: nat, i: int)
      requires Valid() && 0 <= i < n
      modifies this`accepted, this`igvalid
      ensures Valid() && View() == old(View()).(accepted := Insert(old(accepted), v, i), igvalid := Ones(old(igvalid)) + {i})
    {
      accepted := Insert(accepted, v, i);
      OnesSet(igvalid, i);
      igvalid := igvalid[i := 1];
    }

    /** The body of MonitorRBC4Status for a delivered vote. */
    method OnVote(v: nat, i: int, vote: int)
      requires Valid() && 0 <= vote < n
      modifies this`M
      ensures Valid() && View() == AcceptVote(old(View()), v, i, vote)
    {
      if igvalid[vote] == 1 {
        M := M[v := VotesAt(M, v)[i := vote]];
      }
    }

    /** With a quorum of votes, the node proposes a most frequent one in the next view. */
    method NextView() returns (p: Option<Prejustify>)
      requires Valid()
      modifies this`view
      ensures Valid()
      ensures |VotesAt(M, old(view))| >= Q(n) ==> view == old(view) + 1 && (p.Some? <==> view < n)
      ensures |VotesAt(M, old(view))| < Q(n) ==> view == old(view) && p == None
      ensures p.Some? ==> p.value.justify == VotesAt(M, old(view))
      ensures p.Some? && VotesAt(M, old(view)) != map[] ==> MostFrequent(p.value.justify, p.value.pre)
    {
      p := None;
      var justify := VotesAt(M, view);
      if |justify| >= Q(n) {
        var k, _ := Getfrequent(justify);
        view := view + 1;
        if view >= n {
          return;
        }
        p := Some(Prejustify(k, justify));
      }
    }

    /** The body of MonitorMStatus. */
    method CheckLock(v: nat)
      requires Valid() && n >= 1
      modifies this`ra
      ensures Valid()
      ensures old(ra).Some? ==> ra == old(ra)
      ensures old(ra) == None && ra.Some? ==> MostFrequent(VotesAt(M, v), ra.value) && Freq(VotesAt(M, v), ra.value) >= Q(n)
      ensures old(ra) == None && ra == None ==> forall k :: Freq(VotesAt(M, v), k) < Q(n)
    {
      QuorumArithmetic(n);
      var votes := VotesAt(M, v);
      var k, count := Getfrequent(votes);
      if votes == map[] {
        forall w
          ensures Freq(votes, w) == 0
        {
          assert Supporters(votes, w) == {};
        }
      }
      if count >= Q(n) {
        if ra == None {
          ra := Some(k);
        }
      }
    }
  }

  /** val[0] after the result of a gather is sorted and reversed is its highest index. */
  method Leader(sorted: array<int>) returns (l: int)
    requires sorted.Length > 0
    requires forall i, j :: 0 <= i < j < sorted.Length ==> sorted[i] <= sorted[j]
    modifies sorted
    ensures Highest(old(sorted[..]), l) && l == sorted[0]
    ensures |sorted[..]| == |old(sorted[..])|
    ensures forall i :: 0 <= i < sorted.Length ==> sorted[i] == old(sorted[sorted.Length - 1 - i])
  {
    var i, j := 0, sorted.Length - 1;
    while i < j
      invariant 0 <= i <= sorted.Length && j == sorted.Length - 1 - i && i <= j + 1
      invariant forall k :: 0 <= k < i ==> sorted[k] == old(sorted[sorted.Length - 1 - k]) && sorted[sorted.Length - 1 - k] == old(sorted[k])
      invariant forall k :: i <= k <= j ==> sorted[k] == old(sorted[k])
    {
      sorted[i], sorted[j] := sorted[j], sorted[i];
      i, j := i + 1, j - 1;
    }
    l := sorted[0];
    assert l == old(sorted[..])[sorted.Length - 1];
  }

  lemma OnesExtend(vec: seq<int>, i: nat)
    requires i < |vec|
    ensures |Ones(vec[..i + 1])| == |Ones(vec[..i])| + if vec[i] == 1 then 1 else 0
  {
    if vec[i] == 1 {
      assert Ones(vec[..i + 1]) == Ones(vec[..i]) + {i};
    } else {
      assert Ones(vec[..i + 1]) == Ones(vec[..i]);
    }
  }

  lemma OnesSet(vec: seq<int>, i: int)
    requires 0 <= i < |vec|
    ensures Ones(vec[i := 1]) == Ones(vec) + {i}
  {
  }

  lemma IncludedOnes(vec: seq<int>, full: seq<int>)
    requires |vec| <= |full| && Bits(full)
    ensures (forall i :: 0 <= i < |vec| && vec[i] == 1 ==> full[i] != 0) <==> Ones(vec) <= Ones(full)
  {
    if Ones(vec) <= Ones(full) {
      forall i | 0 <= i < |vec| && vec[i] == 1
        ensures full[i] != 0
      {
        assert i in Ones(vec);
      }
    }
  }
}
