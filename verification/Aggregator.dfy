/** Transaction summaries (scanner/aggregator/simple.go) over the interaction rows of the store,
    which is keyed by transaction and ordinal (database/scanner/results.go). */
module Aggregator {
  import opened Text
  import opened ScanTypes
  import Sorting

  datatype Row = Row(candidate: Candidate, verdict: Verdict)

  datatype Summary = Summary(tx: string, block: nat, verified: bool, strict: bool, count: nat, strictCount: nat, protocols: seq<string>)

  // ---- the rows of a transaction, by ordinal ----

  function Least(s: set<nat>): (m: nat)
    requires s != {}
    ensures m in s && forall x :: x in s ==> m <= x
  {
    LeastExists(s);
    var m :| m in s && forall x :: x in s ==> m <= x;
    m
  }

  lemma {:induction false} LeastExists(s: set<nat>)
    requires s != {}
    ensures exists m :: m in s && forall x :: x in s ==> m <= x
  {
    var m := LeastOf(s);
  }

  lemma {:induction false} LeastOf(s: set<nat>) returns (m: nat)
    requires s != {}
    ensures m in s && forall x :: x in s ==> m <= x
    decreases |s|
  {
    var y :| y in s;
    m := y;
    if s != {y} {
      var least := LeastOf(s - {y});
      m := if least <= y then least else y;
      forall x | x in s ensures m <= x {
        assert x == y || x in s - {y};
      }
    }
  }

  function Ascending(s: set<nat>): (list: seq<nat>)
    ensures forall x :: x in list <==> x in s
    ensures forall i, j :: 0 <= i < j < |list| ==> list[i] < list[j]
    decreases |s|
  {
    if s == {} then [] else [Least(s)] + Ascending(s - {Least(s)})
  }

  function Ordinals(rows: map<Key, Row>, tx: string): set<nat> {
    set key | key in rows && key.tx == tx :: key.ordinal
  }

  function RowsOf(rows: map<Key, Row>, tx: string): (list: seq<Row>)
    ensures list == [] <==> forall key :: key in rows ==> key.tx != tx
  {
    var ordinals := Ascending(Ordinals(rows, tx));
    assert forall n :: n in ordinals ==> Key(tx, n) in rows;
    assert forall key :: key in rows && key.tx == tx ==> key.ordinal in ordinals;
    seq(|ordinals|, i requires 0 <= i < |ordinals| => rows[Key(tx, ordinals[i])])
  }

  /** The rows of a transaction are listed once each, by strictly ascending ordinal. */
  lemma {:induction false} RowsInOrder(rows: map<Key, Row>, tx: string) returns (ordinals: seq<nat>)
    ensures forall i, j :: 0 <= i < j < |ordinals| ==> ordinals[i] < ordinals[j]
    ensures forall n :: n in ordinals <==> Key(tx, n) in rows
    ensures |RowsOf(rows, tx)| == |ordinals| && forall i :: 0 <= i < |ordinals| ==> RowsOf(rows, tx)[i] == rows[Key(tx, ordinals[i])]
  {
    ordinals := Ascending(Ordinals(rows, tx));
  }

  // ---- the summary ----

  predicate IsStrict(row: Row) {
    row.verdict.verified && row.verdict.strict
  }

  function StrictRows(rows: seq<Row>, k: nat): nat
    requires k <= |rows|
  {
    if k == 0 then 0 else StrictRows(rows, k - 1) + if IsStrict(rows[k - 1]) then 1 else 0
  }

  function ProtocolsOf(rows: seq<Row>): set<string> {
    set row | row in rows :: row.candidate.protocol
  }

  lemma {:induction false} TextIsStrictWeak()
    ensures Sorting.StrictWeak(ByText())
  {
    forall a, b ensures ByText()(a, b) ==> !ByText()(b, a) {
      StrLessTotal(a, b);
    }
    forall a, b, c | ByText()(a, c) ensures ByText()(a, b) || ByText()(b, c) {
      StrLessTotal(a, b);
      StrLessTotal(b, c);
      if StrLess(b, a) {
        StrLessTransitive(b, a, c);
      }
    }
  }

  /** A list of protocols as the summary shows it: each once, in byte order. */
  ghost predicate ListsProtocols(rows: seq<Row>, list: seq<string>) {
    (forall p :: p in list <==> p in ProtocolsOf(rows)) && Sorting.StrictlySorted(ByText(), list)
  }

  /** Protocols in the order they are first met. */
  function FirstMet(rows: seq<Row>, k: nat): (met: seq<string>)
    requires k <= |rows|
    ensures forall p :: p in met <==> exists i :: 0 <= i < k && rows[i].candidate.protocol == p
  {
    if k == 0 then [] else
      var before, p := FirstMet(rows, k - 1), rows[k - 1].candidate.protocol;
      if p in before then before else before + [p]
  }

  lemma {:induction false} FirstMetDistinct(rows: seq<Row>, k: nat)
    requires k <= |rows|
    ensures Sorting.Distinct(FirstMet(rows, k))
  {
    if k > 0 {
      FirstMetDistinct(rows, k - 1);
    }
  }

  function SortedProtocols(rows: seq<Row>): seq<string> {
    Sorting.Sort(ByText(), FirstMet(rows, |rows|))
  }

  lemma {:induction false} StrictlyByText(list: seq<string>)
    requires Sorting.Distinct(list)
    ensures Sorting.StrictlySorted(ByText(), Sorting.Sort(ByText(), list))
  {
    TextIsStrictWeak();
    forall a, b | a in list && b in list && a != b ensures ByText()(a, b) || ByText()(b, a) {
      StrLessTotal(a, b);
    }
    Sorting.SortStrict(ByText(), list);
  }

  lemma {:induction false} SortedProtocolsListed(rows: seq<Row>)
    ensures ListsProtocols(rows, SortedProtocols(rows))
  {
    var met := FirstMet(rows, |rows|);
    FirstMetDistinct(rows, |rows|);
    StrictlyByText(met);
    forall p ensures p in SortedProtocols(rows) <==> p in ProtocolsOf(rows) {
      Sorting.SameElements(SortedProtocols(rows), met, p);
    }
  }

  function Summarize(tx: string, rows: seq<Row>): Option<Summary> {
    if rows == [] then None else
      Some(Summary(tx, rows[0].candidate.block, exists row :: row in rows && row.verdict.verified,
                   exists row :: row in rows && IsStrict(row), |rows|, StrictRows(rows, |rows|), SortedProtocols(rows)))
  }

  method SortProtocols(protocols: set<string>) returns (list: seq<string>)
    ensures (forall p :: p in list <==> p in protocols) && Sorting.StrictlySorted(ByText(), list)
  {
    var rest := protocols;
    var listed: seq<string> := [];
    while rest != {}
      invariant rest <= protocols && Sorting.Distinct(listed)
      invariant forall p :: p in listed <==> p in protocols - rest
      decreases |rest|
    {
      var p :| p in rest;
      assert p !in listed;
      listed := listed + [p];
      rest := rest - {p};
    }
    list := Sorting.Sort(ByText(), listed);
    StrictlyByText(listed);
    forall p ensures p in list <==> p in listed {
      Sorting.SameElements(list, listed, p);
    }
  }

  method AggregateByTx(tx: string, rows: seq<Row>) returns (summary: Option<Summary>)
    ensures summary == Summarize(tx, rows)
  {
    if |rows| == 0 {
      return None;
    }
    var protocolSet: set<string> := {};
    var verified, strict, strictCount := false, false, 0;
    for i := 0 to |rows|
      invariant protocolSet == set j | 0 <= j < i :: rows[j].candidate.protocol
      invariant verified <==> exists j :: 0 <= j < i && rows[j].verdict.verified
      invariant strict <==> exists j :: 0 <= j < i && IsStrict(rows[j])
      invariant strictCount == StrictRows(rows, i)
    {
      protocolSet := protocolSet + {rows[i].candidate.protocol};
      if rows[i].verdict.verified {
        verified := true;
      }
      if rows[i].verdict.verified && rows[i].verdict.strict {
        strict := true;
        strictCount := strictCount + 1;
      }
    }
    var protocols := SortProtocols(protocolSet);
    SortedProtocolsListed(rows);
    assert forall p :: p in protocols <==> p in ProtocolsOf(rows);
    TextIsStrictWeak();
    Sorting.SameSetSameOrder(ByText(), protocols, SortedProtocols(rows));
    return Some(Summary(tx, rows[0].candidate.block, verified, strict, |rows|, strictCount, protocols));
  }

  // ---- what a summary says ----

  lemma {:induction false} StrictRowsCounted(rows: seq<Row>, k: nat)
    requires k <= |rows|
    ensures StrictRows(rows, k) == |set i | 0 <= i < k && IsStrict(rows[i])| <= k
  {
    var here := set i | 0 <= i < k && IsStrict(rows[i]);
    if k > 0 {
      StrictRowsCounted(rows, k - 1);
      var before := set i | 0 <= i < k - 1 && IsStrict(rows[i]);
      assert here == before + if IsStrict(rows[k - 1]) then {k - 1} else {};
    }
  }

  lemma {:induction false} SomeStrict(rows: seq<Row>, k: nat)
    requires k <= |rows|
    ensures StrictRows(rows, k) > 0 <==> exists i :: 0 <= i < k && IsStrict(rows[i])
  {
    if k > 0 {
      SomeStrict(rows, k - 1);
    }
  }

  /** A summary says of its rows: the block of the first, whether any is verified, whether any is
      verified and strict and how many are, how many there are, and their protocols, each once, in byte
      order. There is one exactly when there are rows. */
  lemma {:induction false} SummaryConsistent(tx: string, rows: seq<Row>)
    ensures Summarize(tx, rows).Some? <==> rows != []
    ensures
      rows != [] ==>
        var s := Summarize(tx, rows).value;
        && s.tx == tx && s.block == rows[0].candidate.block && s.count == |rows|
        && (s.verified <==> exists row :: row in rows && row.verdict.verified)
        && (s.strict <==> exists row :: row in rows && row.verdict.verified && row.verdict.strict)
        && s.strictCount == |set i | 0 <= i < |rows| && rows[i].verdict.verified && rows[i].verdict.strict|
        && (s.strict ==> s.verified) && (s.strict <==> s.strictCount > 0) && s.strictCount <= s.count
        && (forall p :: p in s.protocols <==> exists row :: row in rows && row.candidate.protocol == p)
        && (forall i, j :: 0 <= i < j < |s.protocols| ==> StrLess(s.protocols[i], s.protocols[j]))
  {
    if rows != [] {
      StrictRowsCounted(rows, |rows|);
      SomeStrict(rows, |rows|);
      SortedProtocolsListed(rows);
      assert (set i | 0 <= i < |rows| && rows[i].verdict.verified && rows[i].verdict.strict) == set i | 0 <= i < |rows| && IsStrict(rows[i]);
    }
  }
}
