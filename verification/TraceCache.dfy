/** The trace cache (scanner/trace/cached.go): a memo table over a trace provider that keeps its own
    copy of every tree and hands out copies, so that callers may do what they like with them. */
module TraceCache {
  import opened Text
  import opened TraceTree
  import opened ScanTypes

  /** A call frame without the frames it calls. */
  datatype Fields = Fields(kind: string, from: string, to: string, input: string, output: string, error: string, revertReason: string)

  function FieldsOf(t: CallFrame): Fields {
    Fields(t.kind, t.from, t.to, t.input, t.output, t.error, t.revertReason)
  }

  function Framed(f: Fields, calls: seq<CallFrame>): CallFrame {
    CallFrame(f.kind, f.from, f.to, f.input, f.output, f.error, f.revertReason, calls)
  }

  /** A call frame in memory. */
  class Node {
    var fields: Fields
    var calls: seq<Node>

    constructor (fields: Fields, calls: seq<Node>)
      ensures this.fields == fields && this.calls == calls
    {
      this.fields := fields;
      this.calls := calls;
    }
  }

  /** In memory, node n is the root of tree t, made of frames of the region only. */
  ghost predicate Holds(n: Node, t: CallFrame, region: set<Node>)
    reads region
    decreases t
  {
    && n in region && n.fields == FieldsOf(t) && |n.calls| == |t.calls|
    && forall i :: 0 <= i < |t.calls| ==> Holds(n.calls[i], t.calls[i], region)
  }

  lemma {:induction false} HoldsInMore(n: Node, t: CallFrame, region: set<Node>, more: set<Node>)
    requires Holds(n, t, region) && region <= more
    ensures Holds(n, t, more)
    decreases t
  {
    forall i | 0 <= i < |t.calls| ensures Holds(n.calls[i], t.calls[i], more) {
      HoldsInMore(n.calls[i], t.calls[i], region, more);
    }
  }

  /** cloneCallFrame: a tree of the same value, made of new frames only. */
  method CloneCallFrame(n: Node, ghost t: CallFrame, ghost region: set<Node>) returns (copy: Node, ghost made: set<Node>)
    requires Holds(n, t, region)
    ensures fresh(made) && Holds(copy, t, made)
    decreases t
  {
    var calls: seq<Node> := [];
    made := {};
    for i := 0 to |n.calls|
      invariant |calls| == i && fresh(made)
      invariant forall j :: 0 <= j < i ==> Holds(calls[j], t.calls[j], made)
    {
      ghost var before := made;
      var child, more := CloneCallFrame(n.calls[i], t.calls[i], region);
      made := before + more;
      forall j | 0 <= j < i ensures Holds(calls[j], t.calls[j], made) {
        HoldsInMore(calls[j], t.calls[j], before, made);
      }
      HoldsInMore(child, t.calls[i], more, made);
      calls := calls + [child];
    }
    copy := new Node(n.fields, calls);
    forall j | 0 <= j < |calls| ensures Holds(calls[j], t.calls[j], made + {copy}) {
      HoldsInMore(calls[j], t.calls[j], made, made + {copy});
    }
    made := made + {copy};
  }

  /** Any change whatever to frames that were handed out: nothing is promised about the outcome. */
  method Tamper(frames: set<Node>, fields: Fields, calls: seq<Node>)
    modifies frames
  {
    var rest := frames;
    while rest != {}
      invariant rest <= frames
      decreases |rest|
    {
      var n :| n in rest;
      n.fields, n.calls := fields, calls;
      rest := rest - {n};
    }
  }

  // ---- the provider behind the cache ----

  function KeyOf(hash: string): string {
    NormalizeAddress(hash)
  }

  /** A deterministic provider that does not care about the case of hashes, and counts its questions. */
  class Base {
    const answer: string -> TraceAnswer
    ghost var asked: seq<string>

    constructor (answer: string -> TraceAnswer)
      ensures this.answer == answer && asked == []
    {
      this.answer := answer;
      asked := [];
    }

    static method Build(t: CallFrame) returns (n: Node, ghost made: set<Node>)
      ensures fresh(made) && Holds(n, t, made)
      decreases t
    {
      var calls: seq<Node> := [];
      made := {};
      for i := 0 to |t.calls|
        invariant |calls| == i && fresh(made)
        invariant forall j :: 0 <= j < i ==> Holds(calls[j], t.calls[j], made)
      {
        ghost var before := made;
        var child, more := Build(t.calls[i]);
        made := before + more;
        forall j | 0 <= j < i ensures Holds(calls[j], t.calls[j], made) {
          HoldsInMore(calls[j], t.calls[j], before, made);
        }
        HoldsInMore(child, t.calls[i], more, made);
        calls := calls + [child];
      }
      n := new Node(FieldsOf(t), calls);
      forall j | 0 <= j < |calls| ensures Holds(calls[j], t.calls[j], made + {n}) {
        HoldsInMore(calls[j], t.calls[j], made, made + {n});
      }
      made := made + {n};
    }

    method TraceTransaction(hash: string) returns (root: Node?, error: Option<string>, ghost made: set<Node>)
      modifies this
      ensures asked == old(asked) + [KeyOf(hash)] && fresh(made)
      ensures Replies(answer(KeyOf(hash)), root, error, made)
    {
      asked := asked + [KeyOf(hash)];
      root, error, made := null, None, {};
      match answer(KeyOf(hash))
      case TraceError(message) => error := Some(message);
      case NoTrace =>
      case Traced(tree) => root, made := Build(tree);
    }
  }

  /** What a lookup returns, as the answer says, in frames of its own. */
  ghost predicate Replies(answer: TraceAnswer, root: Node?, error: Option<string>, made: set<Node>)
    reads made
  {
    match answer
    case TraceError(message) => error == Some(message) && root == null
    case NoTrace => error.None? && root == null
    case Traced(tree) => error.None? && root != null && Holds(root, tree, made)
  }

  /** What the cached provider answers: a blank hash is refused, everything else is up to the base. */
  function Answered(answer: string -> TraceAnswer, hash: string): TraceAnswer {
    if KeyOf(hash) == "" then TraceError("tx hash is required") else answer(KeyOf(hash))
  }

  class CachedProvider {
    const base: Base
    var cache: map<string, Node>
    ghost var owned: set<Node>

    constructor (base: Base)
      ensures Valid() && this.base == base && cache == map[] && owned == {}
    {
      this.base := base;
      cache, owned := map[], {};
    }

    /** Every cached tree is what the base answers, in frames that are the cache's own. */
    ghost predicate Valid()
      reads this, owned
    {
      forall key :: key in cache ==> base.answer(key).Traced? && Holds(cache[key], base.answer(key).root, owned)
    }

    method TraceTransaction(hash: string) returns (root: Node?, error: Option<string>, ghost made: set<Node>)
      requires Valid()
      modifies this, base
      ensures Valid() && fresh(owned - old(owned)) && fresh(made) && made !! owned
      ensures Replies(Answered(base.answer, hash), root, error, made)
      ensures var key := KeyOf(hash);
              && base.asked == old(base.asked) + (if key == "" || key in old(cache) then [] else [key])
              && cache.Keys == old(cache.Keys) + if key != "" && base.answer(key).Traced? then {key} else {}
    {
      var key := KeyOf(hash);
      root, error, made := null, None, {};
      if key == "" {
        return null, Some("tx hash is required"), {};
      }
      if key in cache {
        root, made := CloneCallFrame(cache[key], base.answer(key).root, owned);
        return;
      }
      ghost var theirs: set<Node>;
      root, error, theirs := base.TraceTransaction(hash);
      if error.Some? || root == null {
        return;
      }
      ghost var tree := base.answer(key).root;
      var cloned, mine := CloneCallFrame(root, tree, theirs);
      Keep(key, cloned, mine);
      root, made := CloneCallFrame(cloned, tree, mine);
    }

    method Keep(key: string, cloned: Node, ghost mine: set<Node>)
      requires Valid() && base.answer(key).Traced? && Holds(cloned, base.answer(key).root, mine)
      modifies this
      ensures Valid() && owned == old(owned) + mine && cache == old(cache)[key := cloned]
    {
      ghost var before := owned;
      forall k | k in cache ensures Holds(cache[k], base.answer(k).root, before + mine) {
        HoldsInMore(cache[k], base.answer(k).root, before, before + mine);
      }
      HoldsInMore(cloned, base.answer(key).root, mine, before + mine);
      cache := cache[key := cloned];
      owned := before + mine;
    }
  }

  // ---- whole sessions: lookups, with callers changing what they were given in between ----

  datatype Step = Lookup(hash: string) | Change(fields: Fields)

  /** What a caller reads from a tree it was given. */
  method ReadTree(n: Node, ghost t: CallFrame, ghost region: set<Node>) returns (value: CallFrame)
    requires Holds(n, t, region)
    ensures value == t
    decreases t
  {
    var calls: seq<CallFrame> := [];
    for i := 0 to |n.calls|
      invariant calls == t.calls[..i]
    {
      var child := ReadTree(n.calls[i], t.calls[i], region);
      calls := calls + [child];
    }
    value := Framed(n.fields, calls);
  }

  /** The answers to the lookups among the first k steps: what the base would answer to each. */
  function Answers(answer: string -> TraceAnswer, script: seq<Step>, k: nat): seq<TraceAnswer>
    requires k <= |script|
  {
    if k == 0 then [] else
      Answers(answer, script, k - 1) + if script[k - 1].Lookup? then [Answered(answer, script[k - 1].hash)] else []
  }

  /** The keys that have been traced by the first k steps. */
  function TracedKeys(answer: string -> TraceAnswer, script: seq<Step>, k: nat): set<string>
    requires k <= |script|
  {
    if k == 0 then {} else
      var step := script[k - 1];
      TracedKeys(answer, script, k - 1) + if step.Lookup? && KeyOf(step.hash) != "" && answer(KeyOf(step.hash)).Traced? then {KeyOf(step.hash)} else {}
  }

  /** What the base is asked in the first k steps. */
  function Asked(answer: string -> TraceAnswer, script: seq<Step>, k: nat): seq<string>
    requires k <= |script|
  {
    if k == 0 then [] else
      var step := script[k - 1];
      Asked(answer, script, k - 1)
      + if step.Lookup? && KeyOf(step.hash) != "" && KeyOf(step.hash) !in TracedKeys(answer, script, k - 1) then [KeyOf(step.hash)] else []
  }

  /** The cache cannot be told from the base: whatever callers do to the trees they get, every lookup is
      answered as the base answers, and the frames handed out are never the cache's own. */
  method Session(answer: string -> TraceAnswer, script: seq<Step>) returns (answers: seq<TraceAnswer>, ghost asked: seq<string>)
    ensures answers == Answers(answer, script, |script|)
    ensures asked == Asked(answer, script, |script|)
  {
    var base := new Base(answer);
    var provider := new CachedProvider(base);
    var given: set<Node> := {};
    answers := [];
    for k := 0 to |script|
      invariant provider.Valid() && provider.base == base && base.answer == answer
      invariant fresh(provider) && fresh(base) && fresh(given) && given !! provider.owned
      invariant answers == Answers(answer, script, k) && base.asked == Asked(answer, script, k)
      invariant provider.cache.Keys == TracedKeys(answer, script, k)
    {
      match script[k]
      case Lookup(hash) =>
        var root, error, made := provider.TraceTransaction(hash);
        var reply := NoTrace;
        if error.Some? {
          reply := TraceError(error.value);
        } else if root != null {
          var value := ReadTree(root, answer(KeyOf(hash)).root, made);
          reply := Traced(value);
          var frames := FramesOf(root, answer(KeyOf(hash)).root, made);
          given := given + frames;
        }
        answers := answers + [reply];
      case Change(fields) =>
        Tamper(given, fields, []);
    }
    asked := base.asked;
  }

  /** All frames reachable from the root of a tree. */
  method FramesOf(n: Node, ghost t: CallFrame, ghost region: set<Node>) returns (frames: set<Node>)
    requires Holds(n, t, region)
    ensures frames <= region && n in frames
    decreases t
  {
    frames := {n};
    for i := 0 to |n.calls|
      invariant frames <= region && n in frames
    {
      var below := FramesOf(n.calls[i], t.calls[i], region);
      frames := frames + below;
    }
  }

  function Count(keys: seq<string>, key: string): nat {
    if keys == [] then 0 else (if keys[|keys| - 1] == key then 1 else 0) + Count(keys[..|keys| - 1], key)
  }

  function Lookups(script: seq<Step>, k: nat, key: string): nat
    requires k <= |script|
  {
    if k == 0 then 0 else Lookups(script, k - 1, key) + if script[k - 1].Lookup? && KeyOf(script[k - 1].hash) == key then 1 else 0
  }

  /** How often the base is asked about a hash, in any spelling: once if it has a trace and was looked
      up at all, and at every lookup if it has none or fails, because those answers are not kept. */
  lemma {:induction false} AskedExactly(answer: string -> TraceAnswer, script: seq<Step>, k: nat, key: string)
    requires k <= |script| && key != ""
    ensures key in TracedKeys(answer, script, k) <==> answer(key).Traced? && Lookups(script, k, key) > 0
    ensures Count(Asked(answer, script, k), key) ==
            if answer(key).Traced? then (if Lookups(script, k, key) > 0 then 1 else 0) else Lookups(script, k, key)
  {
    hide KeyOf;
    if k > 0 {
      AskedExactly(answer, script, k - 1, key);
      var before, now := Asked(answer, script, k - 1), Asked(answer, script, k);
      if now != before {
        assert now[..|now| - 1] == before;
      }
    }
  }
}
