/**
 * QueryDepthAnalyzer (web/dbqueryapp/query_depth.py): the nesting depth of a parsed
 * query, the larger of
 *   - the structural depth: the most parent links from any scope to the root, and
 *   - the CTE chain depth: the longest dependency chain between the named subqueries of
 *     the first WITH clause, found by a text heuristic on the comment-free SQL text.
 *
 * The scope tree comes from the parsing library; the model receives the results of
 * those foreign calls as a ScopeSource value.  The heuristic's longest-path search is a
 * memoised depth-first search without a cycle guard: in the source a cyclic reference
 * recurses until Python gives up, and the analyzer then falls back to the structural
 * depth.  The model detects the re-entry of a node that is still being searched and
 * reports the same failure.
 */
module QueryDepth {
  import opened Wrappers
  import opened PyStr
  import opened SqlTree

  function Max(a: int, b: int): int {
    if a >= b then a else b
  }

  // ----------------------------------------------------------------------------------
  // Scopes and the structural depth
  // ----------------------------------------------------------------------------------

  /** Parent links of the traversed scopes: -1 for a scope without parent, else an earlier index. */
  predicate ParentsPrecede(p: seq<int>) {
    forall i :: 0 <= i < |p| ==> -1 <= p[i] < i
  }

  type ScopeParents = p: seq<int> | ParentsPrecede(p) witness []

  /** The outcome of a foreign call that may raise. */
  datatype Attempt<T> = Done(value: T) | Raises

  /** A root scope; `traversal` is what `root_scope.traverse()` yields, or Raises. */
  datatype Scope = Scope(traversal: Attempt<ScopeParents>)

  /**
   * What the foreign scope lookups give for one parsed tree:
   *   attached - `parsed.scope or parsed.find().scope` (a raising lookup counts as absent);
   *   built    - `scope_builder(parsed)`;
   *   rebuilt  - `scope_builder(parse_one(parsed.sql()))`, Raises if any step raises.
   */
  datatype ScopeSource = ScopeSource(attached: Option<Scope>, built: Attempt<Option<Scope>>, rebuilt: Attempt<Option<Scope>>)

  datatype ScopeLookup = Found(root: Scope) | NoScope | ScopeFailed

  /** The fallback chain attached scope, then builder, then reparse-and-build. */
  function ResolveScope(src: ScopeSource): (r: ScopeLookup)
    ensures r.ScopeFailed? <==> src.attached.None? && src.built.Raises? && src.rebuilt.Raises?
    ensures src.attached.Some? ==> r == Found(src.attached.value)
    ensures src.attached.None? && src.built.Done? ==> (r.Found? <==> src.built.value.Some?)
  {
    if src.attached.Some? then Found(src.attached.value)
    else match src.built
      case Done(o) => if o.Some? then Found(o.value) else NoScope
      case Raises =>
        match src.rebuilt
        case Done(o) => if o.Some? then Found(o.value) else NoScope
        case Raises => ScopeFailed
  }

  /** Number of parent links from scope `i` to a scope without parent. */
  function ScopeDepth(p: ScopeParents, i: nat): nat
    requires i < |p|
    decreases i
  {
    if p[i] < 0 then 0 else 1 + ScopeDepth(p, p[i])
  }

  lemma {:induction false} ScopeDepthBelowIndex(p: ScopeParents, i: nat)
    requires i < |p|
    ensures ScopeDepth(p, i) <= i
    decreases i
  {
    if p[i] >= 0 {
      ScopeDepthBelowIndex(p, p[i]);
    }
  }

  /** The largest depth among the first `k` scopes (0 when there are none). */
  function DeepestScope(p: ScopeParents, k: nat): (r: nat)
    requires k <= |p|
    ensures forall i :: 0 <= i < k ==> ScopeDepth(p, i) <= r
    ensures k == 0 ==> r == 0
    ensures k > 0 ==> exists i :: 0 <= i < k && r == ScopeDepth(p, i)
  {
    if k == 0 then 0 else Max(DeepestScope(p, k - 1), ScopeDepth(p, k - 1))
  }

  /** The loop over `root_scope.traverse()` that follows parent pointers. */
  method MaxScopeDepth(p: ScopeParents) returns (maxDepth: nat)
    ensures maxDepth == DeepestScope(p, |p|)
  {
    maxDepth := 0;
    var i := 0;
    while i < |p|
      invariant 0 <= i <= |p|
      invariant maxDepth == DeepestScope(p, i)
    {
      var depth := 0;
      var cur := i;
      while p[cur] >= 0
        invariant 0 <= cur <= i
        invariant depth + ScopeDepth(p, cur) == ScopeDepth(p, i)
        decreases cur
      {
        depth := depth + 1;
        cur := p[cur];
      }
      maxDepth := Max(maxDepth, depth);
      i := i + 1;
    }
  }

  /** Structural depth of a root scope: 0 when the traversal raises. */
  function StructuralDepth(s: Scope): nat {
    match s.traversal
    case Raises => 0
    case Done(p) => DeepestScope(p, |p|)
  }

  // ----------------------------------------------------------------------------------
  // CTE heuristic, step 1: the text of the CTE list
  // ----------------------------------------------------------------------------------

  function ParenStep(c: char): int {
    if c == '(' then 1 else if c == ')' then -1 else 0
  }

  /** The parenthesis counter after reading `s`. */
  function Balance(s: string): int
    decreases |s|
  {
    if s == [] then 0 else Balance(s[..|s| - 1]) + ParenStep(s[|s| - 1])
  }

  /** The first position at or after `k` that is not whitespace, or `|s|`. */
  function NextNonSpace(s: string, k: nat): (n: nat)
    requires k <= |s|
    decreases |s| - k
    ensures k <= n <= |s|
    ensures forall j :: k <= j < n ==> IsSpace(s[j])
    ensures n < |s| ==> !IsSpace(s[n])
  {
    if k == |s| || !IsSpace(s[k]) then k else NextNonSpace(s, k + 1)
  }

  /** `remaining[k:k+6].upper() == 'SELECT'`. */
  predicate SelectAt(s: string, k: nat) {
    k + 6 <= |s| && Upper(s[k..k + 6]) == "SELECT"
  }

  /** After reading `r[idx]` the counter is 0 and the next word is SELECT. */
  predicate EndsListAt(r: string, idx: nat) {
    idx < |r| && Balance(r[..idx + 1]) == 0 && SelectAt(r, NextNonSpace(r, idx + 1))
  }

  function FirstListEnd(r: string, from: nat): (res: Option<nat>)
    requires from <= |r|
    decreases |r| - from
    ensures res.Some? ==> from <= res.value < |r| && EndsListAt(r, res.value)
    ensures res.Some? ==> forall j :: from <= j < res.value ==> !EndsListAt(r, j)
    ensures res.None? ==> forall j :: from <= j < |r| ==> !EndsListAt(r, j)
  {
    if from == |r| then None
    else if EndsListAt(r, from) then Some(from)
    else FirstListEnd(r, from + 1)
  }

  /** Where the main SELECT starts in the text after WITH, if the scan finds it. */
  function CteListEnd(r: string): (k: Option<nat>)
    ensures k.Some? ==> k.value <= |r| && SelectAt(r, k.value)
  {
    match FirstListEnd(r, 0)
    case None => None
    case Some(idx) => Some(NextNonSpace(r, idx + 1))
  }

  lemma BalanceStep(s: string, i: nat)
    requires i < |s|
    ensures Balance(s[..i + 1]) == Balance(s[..i]) + ParenStep(s[i])
  {
    assert s[..i + 1][..i] == s[..i];
  }

  /** The character loop with the `paren` counter that finds the end of the CTE list. */
  method FindCteListEnd(remaining: string) returns (endOffset: Option<nat>)
    ensures endOffset == CteListEnd(remaining)
  {
    var paren := 0;
    var idx := 0;
    while idx < |remaining|
      invariant 0 <= idx <= |remaining|
      invariant paren == Balance(remaining[..idx])
      invariant forall j :: 0 <= j < idx ==> !EndsListAt(remaining, j)
    {
      var ch := remaining[idx];
      if ch == '(' {
        paren := paren + 1;
      } else if ch == ')' {
        paren := paren - 1;
      }
      BalanceStep(remaining, idx);
      if paren == 0 {
        var k := idx + 1;
        while k < |remaining| && IsSpace(remaining[k])
          invariant idx + 1 <= k <= |remaining|
          invariant forall j :: idx + 1 <= j < k ==> IsSpace(remaining[j])
        {
          k := k + 1;
        }
        assert k == NextNonSpace(remaining, idx + 1);
        if k + 6 <= |remaining| && Upper(remaining[k..k + 6]) == "SELECT" {
          assert EndsListAt(remaining, idx);
          return Some(k);
        }
      }
      idx := idx + 1;
    }
    endOffset := None;
  }

  // ----------------------------------------------------------------------------------
  // Step 2: split the CTE list on top-level commas
  // ----------------------------------------------------------------------------------

  /** The text between commas read at parenthesis depth 0 (before trimming). */
  function RawSegments(s: string): (r: seq<string>)
    ensures |r| >= 1
    decreases |s|
  {
    if s == [] then [[]]
    else
      var init := RawSegments(s[..|s| - 1]);
      var c := s[|s| - 1];
      if c == ',' && Balance(s[..|s| - 1]) == 0 then init + [[]]
      else init[..|init| - 1] + [init[|init| - 1] + [c]]
  }

  /** Trim every segment and drop the blank ones. */
  function KeepPieces(segs: seq<string>): (r: seq<string>)
    ensures forall i :: 0 <= i < |r| ==> r[i] != [] && Stripped(r[i])
    ensures |r| <= |segs|
  {
    if segs == [] then []
    else
      var last := Strip(segs[|segs| - 1]);
      KeepPieces(segs[..|segs| - 1]) + (if last != [] then [last] else [])
  }

  /** The CTE definitions of a CTE list. */
  function SplitCtes(clause: string): seq<string> {
    KeepPieces(RawSegments(clause))
  }

  /** Appending a character to the last piece appends it to the joined text. */
  lemma JoinGrowLast(init: seq<string>, c: char, sep: string)
    requires |init| >= 1
    ensures Join(init[..|init| - 1] + [init[|init| - 1] + [c]], sep) == Join(init, sep) + [c]
  {
    var front := init[..|init| - 1];
    var last := init[|init| - 1];
    assert init == front + [last];
    if front != [] {
      JoinAppend(front, last, sep);
      JoinAppend(front, last + [c], sep);
    }
  }

  /** The segments joined back with commas give the CTE list. */
  lemma {:induction false} RawSegmentsJoin(s: string)
    ensures Join(RawSegments(s), ",") == s
    decreases |s|
  {
    if s != [] {
      var t := s[..|s| - 1];
      var init := RawSegments(t);
      RawSegmentsJoin(t);
      assert s == t + [s[|s| - 1]];
      if s[|s| - 1] == ',' && Balance(t) == 0 {
        JoinAppend(init, [], ",");
      } else {
        JoinGrowLast(init, s[|s| - 1], ",");
      }
    }
  }

  /** A comma at position `i` is a top-level comma. */
  predicate TopLevelComma(s: string, i: int) {
    0 <= i < |s| && s[i] == ',' && Balance(s[..i]) == 0
  }

  /** Commas inside parentheses never split a definition. */
  lemma {:induction false} NoTopLevelCommaOneSegment(s: string)
    requires forall i :: 0 <= i < |s| ==> !TopLevelComma(s, i)
    ensures RawSegments(s) == [s]
    decreases |s|
  {
    if s != [] {
      var t := s[..|s| - 1];
      var c := s[|s| - 1];
      forall i | 0 <= i < |t|
        ensures !TopLevelComma(t, i)
      {
        assert t[..i] == s[..i];
        assert !TopLevelComma(s, i);
      }
      NoTopLevelCommaOneSegment(t);
      assert !TopLevelComma(s, |s| - 1);
      assert !(c == ',' && Balance(t) == 0);
      assert RawSegments(s) == [t + [c]];
      assert t + [c] == s;
    }
  }

  /** The character loop with `depth_p` and `buf` that splits the CTE list. */
  method SplitTopLevel(clause: string) returns (ctes: seq<string>)
    ensures ctes == SplitCtes(clause)
  {
    ctes := [];
    var buf := "";
    var depthP := 0;
    var i := 0;
    while i < |clause|
      invariant 0 <= i <= |clause|
      invariant depthP == Balance(clause[..i])
      invariant buf == RawSegments(clause[..i])[|RawSegments(clause[..i])| - 1]
      invariant ctes == KeepPieces(RawSegments(clause[..i])[..|RawSegments(clause[..i])| - 1])
    {
      var ch := clause[i];
      assert clause[..i + 1][..i] == clause[..i];
      BalanceStep(clause, i);
      if ch == '(' {
        depthP := depthP + 1;
      } else if ch == ')' {
        depthP := depthP - 1;
      }
      ghost var segs := RawSegments(clause[..i]);
      if ch == ',' && depthP == 0 {
        assert RawSegments(clause[..i + 1]) == segs + [[]];
        assert (segs + [[]])[..|segs|] == segs;
        assert segs == segs[..|segs| - 1] + [buf];
        if Strip(buf) != [] {
          ctes := ctes + [Strip(buf)];
        }
        buf := "";
      } else {
        buf := buf + [ch];
        assert RawSegments(clause[..i + 1]) == segs[..|segs| - 1] + [buf];
        assert (segs[..|segs| - 1] + [buf])[..|segs| - 1] == segs[..|segs| - 1];
      }
      i := i + 1;
    }
    assert clause[..|clause|] == clause;
    ghost var segs := RawSegments(clause);
    assert segs == segs[..|segs| - 1] + [buf];
    if Strip(buf) != [] {
      ctes := ctes + [Strip(buf)];
    }
  }

  // ----------------------------------------------------------------------------------
  // Step 3: names and bodies
  // ----------------------------------------------------------------------------------

  /** How one definition reads: no AS (skipped), nothing before AS (raises), or name and body. */
  datatype CteDef = NoAsKeyword | NoName | Definition(name: string, body: string)

  /**
   * The text of `c` from `from` on with every later whole-word AS (any case) written
   * as `AS`: what `'AS'.join(parts[1:])` rebuilds after `re.split(r"\bAS\b", c, re.I)`.
   */
  function RejoinAs(c: string, from: nat): string
    requires from <= |c|
    decreases |c| - from
  {
    if from == |c| then []
    else if MatchWordAt(c, from, "AS", true) then "AS" + RejoinAs(c, from + 2)
    else [c[from]] + RejoinAs(c, from + 1)
  }

  /** One CTE definition split at its first whole-word AS. */
  function DefOf(c: string): (d: CteDef)
    ensures d.Definition? ==> d.name != [] && forall k :: 0 <= k < |d.name| ==> !IsSpace(d.name[k])
    ensures d.Definition? ==> Stripped(d.body)
    ensures d.NoAsKeyword? <==> FindWord(c, "AS", true, 0).None?
  {
    match FindWord(c, "AS", true, 0)
    case None => NoAsKeyword
    case Some(j) =>
      var toks := Tokens(Strip(c[..j]));
      if toks == [] then NoName
      else Definition(toks[|toks| - 1], Strip(RejoinAs(c, j + 2)))
  }

  /** The `names` list and the `bodies` dict. */
  datatype DefTable = DefTable(names: seq<string>, bodies: map<string, string>)

  ghost predicate BodiesNamed(t: DefTable) {
    forall n :: n in t.bodies <==> n in t.names
  }

  /** All definitions, in order; None when one of them has nothing before AS. */
  function Definitions(ctes: seq<string>): (r: Option<DefTable>)
    ensures r.Some? ==> BodiesNamed(r.value)
    decreases |ctes|
  {
    if ctes == [] then Some(DefTable([], map[]))
    else
      DefStep(Definitions(ctes[..|ctes| - 1]), DefOf(ctes[|ctes| - 1]))
  }

  /** One iteration of the loop over the pieces. */
  function DefStep(acc: Option<DefTable>, d: CteDef): (r: Option<DefTable>)
    requires acc.Some? ==> BodiesNamed(acc.value)
    ensures r.Some? ==> BodiesNamed(r.value)
    ensures r.None? <==> acc.None? || d.NoName?
  {
    match acc
    case None => None
    case Some(t) =>
      match d
      case NoAsKeyword => Some(t)
      case NoName => None
      case Definition(n, b) => Some(DefTable(t.names + [n], t.bodies[n := b]))
  }

  /** The loop over the pieces that appends to `names` and fills `bodies`. */
  method ParseDefinitions(ctes: seq<string>) returns (r: Option<DefTable>)
    ensures r == Definitions(ctes)
  {
    var names: seq<string> := [];
    var bodies: map<string, string> := map[];
    var i := 0;
    while i < |ctes|
      invariant 0 <= i <= |ctes|
      invariant Definitions(ctes[..i]) == Some(DefTable(names, bodies))
    {
      assert ctes[..i + 1][..i] == ctes[..i];
      match DefOf(ctes[i]) {
        case NoAsKeyword =>
        case NoName =>
          DefinitionsAbort(ctes, i + 1);
          return None;
        case Definition(n, b) =>
          names := names + [n];
          bodies := bodies[n := b];
      }
      i := i + 1;
    }
    assert ctes[..|ctes|] == ctes;
    r := Some(DefTable(names, bodies));
  }

  /** Once a prefix has failed, the whole list fails. */
  lemma {:induction false} DefinitionsAbort(ctes: seq<string>, k: nat)
    requires k <= |ctes| && Definitions(ctes[..k]).None?
    ensures Definitions(ctes).None?
    decreases |ctes| - k
  {
    if k < |ctes| {
      assert ctes[..k + 1][..k] == ctes[..k];
      DefinitionsAbort(ctes, k + 1);
    } else {
      assert ctes[..k] == ctes;
    }
  }

  /** The definitions fail exactly when one piece has nothing before its AS. */
  lemma {:induction false} DefinitionsFail(ctes: seq<string>)
    ensures Definitions(ctes).None? <==> exists i :: 0 <= i < |ctes| && DefOf(ctes[i]).NoName?
    decreases |ctes|
  {
    if ctes != [] {
      var front := ctes[..|ctes| - 1];
      var last := DefOf(ctes[|ctes| - 1]);
      DefinitionsFail(front);
      assert Definitions(ctes) == DefStep(Definitions(front), last);
      if Definitions(front).None? {
        var i :| 0 <= i < |front| && DefOf(front[i]).NoName?;
        assert ctes[i] == front[i];
      } else if !last.NoName? {
        forall i | 0 <= i < |ctes|
          ensures !DefOf(ctes[i]).NoName?
        {
          if i < |front| {
            assert ctes[i] == front[i];
            assert !DefOf(front[i]).NoName?;
          } else {
            assert ctes[i] == ctes[|ctes| - 1];
          }
        }
      }
    }
  }

  /** Later definitions of a name replace earlier bodies; every name is listed in order. */
  lemma {:induction false} DefinitionsNames(ctes: seq<string>)
    requires Definitions(ctes).Some?
    ensures Definitions(ctes).value.names
         == seq(|Named(ctes)|, i requires 0 <= i < |Named(ctes)| => DefOf(Named(ctes)[i]).name)
    decreases |ctes|
  {
    if ctes != [] {
      var front := ctes[..|ctes| - 1];
      DefinitionsNames(front);
      assert Named(ctes) == Named(front) + (if DefOf(ctes[|ctes| - 1]).Definition? then [ctes[|ctes| - 1]] else []);
    }
  }

  /** The pieces that define a CTE. */
  function Named(ctes: seq<string>): (r: seq<string>)
    ensures forall i :: 0 <= i < |r| ==> DefOf(r[i]).Definition?
  {
    if ctes == [] then []
    else Named(ctes[..|ctes| - 1]) + (if DefOf(ctes[|ctes| - 1]).Definition? then [ctes[|ctes| - 1]] else [])
  }

  // ----------------------------------------------------------------------------------
  // Step 4: the dependency graph
  // ----------------------------------------------------------------------------------

  type Graph = map<string, set<string>>

  /** `graph.get(node, ())`. */
  function Succ(g: Graph, n: string): set<string> {
    if n in g then g[n] else {}
  }

  /** The names other than `n` that occur as a whole word in `body`. */
  function Mentioned(names: seq<string>, n: string, body: string): set<string> {
    set m | m in names && m != n && HasWord(body, m)
  }

  /** The names `n`'s body depends on. */
  function DependsOn(t: DefTable, n: string): set<string> {
    if n in t.bodies then Mentioned(t.names, n, t.bodies[n]) else {}
  }

  /** An edge from every name to each other name its body mentions. */
  function DependencyGraph(t: DefTable): (g: Graph)
    ensures forall n :: n in g <==> n in t.names
  {
    map n | n in t.names :: DependsOn(t, n)
  }

  lemma MentionedStep(names: seq<string>, n: string, body: string, j: nat)
    requires j < |names|
    ensures Mentioned(names[..j + 1], n, body)
         == Mentioned(names[..j], n, body) + (if names[j] != n && HasWord(body, names[j]) then {names[j]} else {})
  {
    assert names[..j + 1] == names[..j] + [names[j]];
  }

  /** The inner loop over `names` for one body. */
  method MentionedNames(names: seq<string>, n: string, body: string) returns (deps: set<string>)
    ensures deps == Mentioned(names, n, body)
  {
    deps := {};
    var j := 0;
    while j < |names|
      invariant 0 <= j <= |names|
      invariant deps == Mentioned(names[..j], n, body)
    {
      var target := names[j];
      MentionedStep(names, n, body, j);
      if target != n && HasWord(body, target) {
        deps := deps + {target};
      }
      j := j + 1;
    }
    assert names[..|names|] == names;
  }

  /** The loops over `bodies.items()` and `names` that fill `graph`. */
  method BuildGraph(t: DefTable) returns (graph: Graph)
    requires BodiesNamed(t)
    ensures graph == DependencyGraph(t)
  {
    graph := map n | n in t.names :: {};
    var pending := t.bodies.Keys;
    while pending != {}
      invariant pending <= t.bodies.Keys
      invariant forall n :: n in graph <==> n in t.names
      invariant forall n :: n in graph ==> graph[n] == (if n in pending then {} else DependsOn(t, n))
      decreases |pending|
    {
      var n :| n in pending;
      var deps := MentionedNames(t.names, n, t.bodies[n]);
      graph := graph[n := deps];
      pending := pending - {n};
    }
  }

  // ----------------------------------------------------------------------------------
  // Step 5: the longest dependency chain
  // ----------------------------------------------------------------------------------

  /** A walk along edges; its length is the number of names on it. */
  ghost predicate IsPath(g: Graph, p: seq<string>) {
    |p| >= 1 && forall i :: 0 <= i < |p| - 1 ==> p[i + 1] in Succ(g, p[i])
  }

  ghost predicate IsCycle(g: Graph, p: seq<string>) {
    IsPath(g, p) && |p| >= 2 && p[0] == p[|p| - 1]
  }

  ghost predicate HasCycle(g: Graph) {
    exists p :: IsCycle(g, p)
  }

  /** `d` is the length of the longest path that starts at one of `names`. */
  ghost predicate IsChainDepth(g: Graph, names: seq<string>, d: nat) {
    && (forall p :: IsPath(g, p) && p[0] in names ==> |p| <= d)
    && (if names == [] then d == 0 else exists p :: IsPath(g, p) && p[0] in names && |p| == d)
  }

  lemma ChainDepthUnique(g: Graph, names: seq<string>, d1: nat, d2: nat)
    requires IsChainDepth(g, names, d1) && IsChainDepth(g, names, d2)
    ensures d1 == d2
  {
  }

  /** The memo table `visited`. */
  type Memo = map<string, nat>

  /** `memo[k]` is 1 plus the largest entry among its successors, all of which are present. */
  ghost predicate Solved(g: Graph, memo: Memo, k: string)
    requires k in memo
  {
    && memo[k] >= 1
    && (forall t :: t in Succ(g, k) ==> t in memo && memo[t] < memo[k])
    && (memo[k] == 1 || exists t :: t in Succ(g, k) && t in memo && memo[k] == memo[t] + 1)
  }

  ghost predicate MemoOk(g: Graph, memo: Memo) {
    forall k {:trigger Solved(g, memo, k)} :: k in memo ==> Solved(g, memo, k)
  }

  /** Entries only fall along a path, one per edge. */
  lemma {:induction false} PathDescends(g: Graph, memo: Memo, p: seq<string>)
    requires MemoOk(g, memo) && IsPath(g, p) && p[0] in memo
    ensures p[|p| - 1] in memo && memo[p[|p| - 1]] + |p| - 1 <= memo[p[0]]
    decreases |p|
  {
    if |p| > 1 {
      assert Solved(g, memo, p[0]);
      assert p[1] in Succ(g, p[0]);
      var q := p[1..];
      forall i | 0 <= i < |q| - 1
        ensures q[i + 1] in Succ(g, q[i])
      {
        assert q[i + 1] == p[i + 2] && q[i] == p[i + 1];
      }
      PathDescends(g, memo, q);
    }
  }

  /** No path starting at a solved node is longer than its entry. */
  lemma PathBound(g: Graph, memo: Memo, p: seq<string>)
    requires MemoOk(g, memo) && IsPath(g, p) && p[0] in memo
    ensures |p| <= memo[p[0]]
  {
    PathDescends(g, memo, p);
    assert Solved(g, memo, p[|p| - 1]);
  }

  /** Some path starting at a solved node is exactly as long as its entry. */
  lemma {:induction false} LongestPathWitness(g: Graph, memo: Memo, k: string) returns (p: seq<string>)
    requires MemoOk(g, memo) && k in memo
    ensures IsPath(g, p) && p[0] == k && |p| == memo[k]
    decreases memo[k]
  {
    assert Solved(g, memo, k);
    if memo[k] == 1 {
      p := [k];
    } else {
      var t :| t in Succ(g, k) && t in memo && memo[k] == memo[t] + 1;
      var q := LongestPathWitness(g, memo, t);
      p := [k] + q;
      assert forall i :: 1 <= i < |p| ==> p[i] == q[i - 1];
    }
  }

  /** A table solved for every node with successors rules out cycles. */
  lemma NoCycleWhenSolved(g: Graph, memo: Memo)
    requires MemoOk(g, memo)
    requires forall k :: k in g ==> k in memo
    ensures !HasCycle(g)
  {
    if HasCycle(g) {
      var p :| IsCycle(g, p);
      assert p[1] in Succ(g, p[0]);
      PathDescends(g, memo, p);
    }
  }

  lemma {:induction false} PathSuffix(g: Graph, p: seq<string>, i: nat)
    requires IsPath(g, p) && i < |p|
    ensures IsPath(g, p[i..])
  {
    var q := p[i..];
    assert forall j :: 0 <= j < |q| ==> q[j] == p[i + j];
  }

  lemma {:induction false} PathExtend(g: Graph, p: seq<string>, n: string)
    requires IsPath(g, p) && n in Succ(g, p[|p| - 1])
    ensures IsPath(g, p + [n])
  {
    var q := p + [n];
    assert forall j :: 0 <= j < |p| ==> q[j] == p[j];
  }

  function Elements(s: seq<string>): set<string> {
    set k | k in s
  }

  lemma SetShrinks(u: set<string>, a: set<string>, n: string)
    requires n in u && n !in a
    ensures |u - (a + {n})| < |u - a|
  {
    assert u - (a + {n}) == (u - a) - {n};
  }

  /** `b` keeps every entry of `a`. */
  ghost predicate Extends(a: Memo, b: Memo) {
    forall k :: k in a ==> k in b && b[k] == a[k]
  }

  /** None of the searches in progress has an entry yet. */
  ghost predicate Pending(stack: seq<string>, m: Memo) {
    forall k :: k in stack ==> k !in m
  }

  /** The call for a successor of `node` continues the path and shrinks the measure. */
  lemma ChildCall(g: Graph, stack: seq<string>, node: string, nxt: string)
    requires node !in stack && nxt in Succ(g, node)
    requires stack != [] ==> IsPath(g, stack + [node])
    ensures IsPath(g, (stack + [node]) + [nxt])
    ensures |g.Keys - Elements(stack + [node])| < |g.Keys - Elements(stack)|
  {
    if stack == [] {
      assert IsPath(g, [node] + [nxt]);
    } else {
      PathExtend(g, stack + [node], nxt);
    }
    MeasureShrinks(g.Keys, stack, node);
  }

  lemma MeasureShrinks(keys: set<string>, stack: seq<string>, node: string)
    requires node in keys && node !in stack
    ensures |keys - Elements(stack + [node])| < |keys - Elements(stack)|
  {
    ElementsPush(stack, node);
    SetShrinks(keys, Elements(stack), node);
  }

  lemma ElementsPush(s: seq<string>, x: string)
    ensures Elements(s + [x]) == Elements(s) + {x}
  {
  }

  /** Re-entering a search in progress closes a cycle of the graph. */
  lemma ReentryCycle(g: Graph, stack: seq<string>, node: string) returns (cycle: seq<string>)
    requires node in stack && IsPath(g, stack + [node])
    ensures IsCycle(g, cycle)
  {
    var i :| 0 <= i < |stack| && stack[i] == node;
    PathSuffix(g, stack + [node], i);
    assert (stack + [node])[i..] == stack[i..] + [node];
    cycle := stack[i..] + [node];
  }

  lemma PendingPrefix(stack: seq<string>, node: string, m: Memo)
    requires Pending(stack + [node], m)
    ensures Pending(stack, m) && node !in m
  {
    assert forall k :: k in stack ==> k in stack + [node];
  }

  lemma ExtendsTrans(a: Memo, b: Memo, c: Memo)
    requires Extends(a, b) && Extends(b, c)
    ensures Extends(a, c)
  {
  }

  /** A new entry for a node that was neither solved nor in progress keeps both facts. */
  lemma Record(memo: Memo, stack: seq<string>, m: Memo, node: string, len: nat)
    requires Extends(memo, m) && Pending(stack, m) && node !in m && node !in stack
    ensures Extends(memo, m[node := len]) && Pending(stack, m[node := len])
  {
  }

  /** Every explored successor is solved below `maxlen`, and `w` attains it unless it is 1. */
  ghost predicate Explored(m: Memo, done: set<string>, maxlen: nat, w: string) {
    && maxlen >= 1
    && (forall t :: t in done ==> t in m && m[t] < maxlen)
    && (maxlen == 1 || (w in done && w in m && maxlen == m[w] + 1))
  }

  lemma ExploreOne(m: Memo, m2: Memo, done: set<string>, maxlen: nat, w: string, nxt: string, len: nat)
    requires Explored(m, done, maxlen, w) && Extends(m, m2) && nxt in m2 && m2[nxt] == len
    ensures len + 1 > maxlen ==> Explored(m2, done + {nxt}, len + 1, nxt)
    ensures len + 1 <= maxlen ==> Explored(m2, done + {nxt}, maxlen, w)
  {
  }

  /** Recording `maxlen` for a node all of whose successors are solved keeps the table correct. */
  lemma SolveNode(g: Graph, m: Memo, node: string, maxlen: nat, w: string)
    requires MemoOk(g, m) && node !in m
    requires Explored(m, Succ(g, node), maxlen, w)
    ensures MemoOk(g, m[node := maxlen])
  {
    var m' := m[node := maxlen];
    forall k | k in m'
      ensures Solved(g, m', k)
    {
      if k != node {
        assert Solved(g, m, k);
      }
    }
  }

  /**
   * `dfs(node)`: the memoised search.  `stack` holds the searches still in progress
   * (the Python call stack); meeting one of them again is the unbounded recursion of
   * the source, reported as None together with the cycle it follows.
   */
  method Dfs(g: Graph, memo: Memo, node: string, stack: seq<string>)
    returns (res: Option<nat>, memo': Memo, ghost cycle: seq<string>)
    requires MemoOk(g, memo)
    requires Pending(stack, memo)
    requires stack != [] ==> IsPath(g, stack + [node])
    ensures MemoOk(g, memo') && Extends(memo, memo') && Pending(stack, memo')
    ensures res.Some? ==> node in memo' && memo'[node] == res.value
    ensures res.None? ==> IsCycle(g, cycle)
    decreases |g.Keys - Elements(stack)|, 2
  {
    if node in memo {
      return Some(memo[node]), memo, [];
    }
    if node in stack {
      cycle := ReentryCycle(g, stack, node);
      return None, memo, cycle;
    }
    res, memo', cycle := SearchSuccessors(g, memo, node, stack);
  }

  /** The loop of `dfs` over `graph.get(node, ())` for a node met for the first time. */
  method SearchSuccessors(g: Graph, memo: Memo, node: string, stack: seq<string>)
    returns (res: Option<nat>, memo': Memo, ghost cycle: seq<string>)
    requires MemoOk(g, memo)
    requires Pending(stack, memo) && node !in memo && node !in stack
    requires stack != [] ==> IsPath(g, stack + [node])
    ensures MemoOk(g, memo') && Extends(memo, memo') && Pending(stack, memo')
    ensures res.Some? ==> node in memo' && memo'[node] == res.value
    ensures res.None? ==> IsCycle(g, cycle)
    decreases |g.Keys - Elements(stack)|, 1
  {
    var succs := Succ(g, node);
    var m: Memo := memo;
    var maxlen: nat := 1;
    ghost var w: string := node;
    var todo := succs;
    ghost var done: set<string> := {};
    while todo != {}
      invariant todo <= succs && done <= succs
      invariant forall t :: t in succs && t !in todo ==> t in done
      invariant MemoOk(g, m) && Extends(memo, m) && Pending(stack, m)
      invariant node !in m
      invariant Explored(m, done, maxlen, w)
      decreases |todo|
    {
      var nxt :| nxt in todo;
      var r, m2, maxlen2, w2, cyc := ExploreChild(g, memo, m, node, stack, nxt, maxlen, w, done);
      if r.None? {
        return None, m2, cyc;
      }
      maxlen, w := maxlen2, w2;
      m := m2;
      todo := todo - {nxt};
      done := done + {nxt};
    }
    SolveNode(g, m, node, maxlen, w);
    Record(memo, stack, m, node, maxlen);
    memo' := m[node := maxlen];
    res := Some(maxlen);
    cycle := [];
  }

  /** One turn of that loop: the call `dfs(nxt)` on a successor and the running maximum. */
  method ExploreChild(g: Graph, memo: Memo, m: Memo, node: string, stack: seq<string>, nxt: string,
                      maxlen: nat, ghost w: string, ghost done: set<string>)
    returns (r: Option<nat>, m2: Memo, maxlen': nat, ghost w': string, ghost cycle: seq<string>)
    requires MemoOk(g, m) && Extends(memo, m) && Pending(stack, m)
    requires node !in m && node !in stack && nxt in Succ(g, node)
    requires stack != [] ==> IsPath(g, stack + [node])
    requires Explored(m, done, maxlen, w)
    ensures MemoOk(g, m2) && Extends(memo, m2) && Pending(stack, m2)
    ensures r.None? ==> IsCycle(g, cycle)
    ensures r.Some? ==> node !in m2 && Explored(m2, done + {nxt}, maxlen', w')
    decreases |g.Keys - Elements(stack)|, 0
  {
    ChildCall(g, stack, node, nxt);
    r, m2, cycle := Dfs(g, m, nxt, stack + [node]);
    PendingPrefix(stack, node, m2);
    ExtendsTrans(memo, m, m2);
    maxlen', w' := maxlen, w;
    if r.None? {
      return;
    }
    ExploreOne(m, m2, done, maxlen, w, nxt, r.value);
    if 1 + r.value > maxlen {
      maxlen', w' := 1 + r.value, nxt;
    }
  }

  /** `for n in names: cte_chain_depth = max(cte_chain_depth, dfs(n))`. */
  method LongestChain(g: Graph, names: seq<string>) returns (r: Option<nat>, ghost cycle: seq<string>)
    requires forall k :: k in g ==> k in names
    ensures r.None? ==> IsCycle(g, cycle)
    ensures r.Some? ==> !HasCycle(g) && IsChainDepth(g, names, r.value)
  {
    var memo: Memo := map[];
    var best: nat := 0;
    var i := 0;
    while i < |names|
      invariant 0 <= i <= |names|
      invariant MemoOk(g, memo)
      invariant forall j :: 0 <= j < i ==> names[j] in memo && memo[names[j]] <= best
      invariant i == 0 ==> best == 0
      invariant i > 0 ==> exists j :: 0 <= j < i && names[j] in memo && memo[names[j]] == best
    {
      var res, m2, cyc := Dfs(g, memo, names[i], []);
      assert Extends(memo, m2);
      if res.None? {
        return None, cyc;
      }
      memo := m2;
      if res.value > best {
        best := res.value;
      }
      i := i + 1;
    }
    NoCycleWhenSolved(g, memo);
    forall p | IsPath(g, p) && p[0] in names
      ensures |p| <= best
    {
      PathBound(g, memo, p);
    }
    if names != [] {
      var j :| 0 <= j < |names| && names[j] in memo && memo[names[j]] == best;
      var p := LongestPathWitness(g, memo, names[j]);
      assert p[0] in names;
    }
    r := Some(best);
    cycle := [];
  }

  /** Three CTEs where `c` reads `b` and `b` reads `a`: the chain depth is 3. */
  lemma ThreeChainDepth()
    ensures var g: Graph := map["a" := {}, "b" := {"a"}, "c" := {"b"}];
      !HasCycle(g) && IsChainDepth(g, ["a", "b", "c"], 3)
  {
    var g: Graph := map["a" := {}, "b" := {"a"}, "c" := {"b"}];
    var memo: Memo := map["a" := 1, "b" := 2, "c" := 3];
    assert Solved(g, memo, "a") && Solved(g, memo, "b") && Solved(g, memo, "c");
    assert MemoOk(g, memo);
    NoCycleWhenSolved(g, memo);
    forall p | IsPath(g, p) && p[0] in ["a", "b", "c"]
      ensures |p| <= 3
    {
      PathBound(g, memo, p);
    }
    var p := LongestPathWitness(g, memo, "c");
    assert p[0] in ["a", "b", "c"];
  }

  /** A single CTE has chain depth 1. */
  lemma SingleCteDepth(name: string)
    ensures var g: Graph := map[name := {}];
      !HasCycle(g) && IsChainDepth(g, [name], 1)
  {
    var g: Graph := map[name := {}];
    var memo: Memo := map[name := 1];
    assert Solved(g, memo, name);
    NoCycleWhenSolved(g, memo);
    forall p | IsPath(g, p) && p[0] in [name]
      ensures |p| <= 1
    {
      PathBound(g, memo, p);
    }
    assert IsPath(g, [name]);
  }

  /** Two CTEs that read each other form a cycle, on which the search never returns. */
  lemma MutualReferenceCycle(a: string, b: string)
    requires a != b
    ensures HasCycle(map[a := {b}, b := {a}])
  {
    var g: Graph := map[a := {b}, b := {a}];
    assert IsCycle(g, [a, b, a]);
  }

  // ----------------------------------------------------------------------------------
  // The heuristic and the analyzer
  // ----------------------------------------------------------------------------------

  /** The CTE list after the first whole-word WITH, or None when there is no WITH. */
  function WithClause(text: string): Option<string> {
    match FindWord(text, "WITH", true, 0)
    case None => None
    case Some(m) =>
      var remaining := text[m + 4..];
      Some(match CteListEnd(remaining) case None => remaining case Some(k) => remaining[..k])
  }

  datatype CteAnalysis = NoWith | BadDefinition | Dependencies(graph: Graph, names: seq<string>)

  /** What the text heuristic reads off the SQL text. */
  function CteAnalysisOf(text: string): CteAnalysis {
    match WithClause(text)
    case None => NoWith
    case Some(clause) =>
      match Definitions(SplitCtes(clause))
      case None => BadDefinition
      case Some(t) => Dependencies(DependencyGraph(t), t.names)
  }

  /** The heuristic yields `r`: Some(chain depth), or None when it raises. */
  ghost predicate IsCteChainDepth(text: string, r: Option<nat>) {
    match CteAnalysisOf(text)
    case NoWith => r == Some(0)
    case BadDefinition => r == None
    case Dependencies(g, names) =>
      if HasCycle(g) then r == None else r.Some? && IsChainDepth(g, names, r.value)
  }

  /** The `try` block of the CTE heuristic. */
  method CteChainDepth(text: string) returns (r: Option<nat>)
    ensures IsCteChainDepth(text, r)
  {
    var m := FindWord(text, "WITH", true, 0);
    if m.None? {
      return Some(0);
    }
    var start := m.value + 4;
    var remaining := text[start..];
    var endOffset := FindCteListEnd(remaining);
    var clause := if endOffset.None? then remaining else remaining[..endOffset.value];
    var ctes := SplitTopLevel(clause);
    var defs := ParseDefinitions(ctes);
    if defs.None? {
      return None;
    }
    var graph := BuildGraph(defs.value);
    var depth, cycle := LongestChain(graph, defs.value.names);
    r := depth;
  }

  /** `compute_from_parsed` yields `d` for a tree with these scopes and this comment-free text. */
  ghost predicate IsAnalyzerDepth(src: ScopeSource, text: string, d: int) {
    match ResolveScope(src)
    case ScopeFailed => d == 0
    case NoScope => d == 0
    case Found(root) =>
      var sd := StructuralDepth(root);
      match CteAnalysisOf(text)
      case NoWith => d == sd
      case BadDefinition => d == sd
      case Dependencies(g, names) =>
        if HasCycle(g) then d == sd
        else exists chain: nat :: IsChainDepth(g, names, chain) && d == Max(sd, chain)
  }

  lemma AnalyzerDepthUnique(src: ScopeSource, text: string, d1: int, d2: int)
    requires IsAnalyzerDepth(src, text, d1) && IsAnalyzerDepth(src, text, d2)
    ensures d1 == d2
  {
    if ResolveScope(src).Found? {
      match CteAnalysisOf(text)
      case NoWith =>
      case BadDefinition =>
      case Dependencies(g, names) =>
        if !HasCycle(g) {
          var c1: nat :| IsChainDepth(g, names, c1) && d1 == Max(StructuralDepth(ResolveScope(src).root), c1);
          var c2: nat :| IsChainDepth(g, names, c2) && d2 == Max(StructuralDepth(ResolveScope(src).root), c2);
          ChainDepthUnique(g, names, c1, c2);
        }
    }
  }

  /** Without an attached scope, a raising builder and a raising reparse give depth 0. */
  lemma ScopeFailureGivesZero(src: ScopeSource, text: string, d: int)
    requires IsAnalyzerDepth(src, text, d)
    requires src.attached.None? && src.built.Raises? && src.rebuilt.Raises?
    ensures d == 0
  {
  }

  /** The result is never below the structural depth of the root scope found. */
  lemma DepthAtLeastStructural(src: ScopeSource, text: string, d: int)
    requires IsAnalyzerDepth(src, text, d) && ResolveScope(src).Found?
    ensures d >= StructuralDepth(ResolveScope(src).root)
  {
    match CteAnalysisOf(text)
    case NoWith =>
    case BadDefinition =>
    case Dependencies(g, names) =>
      if !HasCycle(g) {
        var chain: nat :| IsChainDepth(g, names, chain) && d == Max(StructuralDepth(ResolveScope(src).root), chain);
      }
  }

  /** Text without a whole-word WITH, in any case, leaves the structural depth as the result. */
  lemma NoWithGivesStructural(src: ScopeSource, text: string, d: int)
    requires IsAnalyzerDepth(src, text, d) && ResolveScope(src).Found?
    requires FindWord(text, "WITH", true, 0).None?
    ensures d == StructuralDepth(ResolveScope(src).root)
  {
  }

  /** A malformed definition or a cycle between CTEs falls back to the structural depth. */
  lemma HeuristicFailureGivesStructural(src: ScopeSource, text: string, d: int)
    requires IsAnalyzerDepth(src, text, d) && ResolveScope(src).Found?
    requires CteAnalysisOf(text).BadDefinition? || (CteAnalysisOf(text).Dependencies? && HasCycle(CteAnalysisOf(text).graph))
    ensures d == StructuralDepth(ResolveScope(src).root)
  {
  }

  /** `QueryDepthAnalyzer.compute_from_parsed`. */
  method ComputeFromParsed(src: ScopeSource, text: string) returns (depth: nat)
    ensures IsAnalyzerDepth(src, text, depth)
  {
    var lookup := ResolveScope(src);
    if !lookup.Found? {
      return 0;
    }
    var maxDepth: nat := 0;
    match lookup.root.traversal {
      case Raises =>
        maxDepth := 0;
      case Done(p) =>
        maxDepth := MaxScopeDepth(p);
    }
    var chain := CteChainDepth(text);
    if chain.None? {
      return maxDepth;
    }
    depth := Max(maxDepth, chain.value);
  }

  /** `QueryDepthAnalyzer.compute_from_sql`: None when the text does not parse. */
  method ComputeFromSql(sql: string, parse: string -> Option<Node>, scopesOf: Node -> ScopeSource, render: Node -> string)
    returns (r: Option<nat>)
    ensures r.None? <==> parse(sql).None?
    ensures r.Some? ==> IsAnalyzerDepth(scopesOf(parse(sql).value), render(parse(sql).value), r.value)
  {
    var parsed := parse(sql);
    if parsed.None? {
      return None;
    }
    var d := ComputeFromParsed(scopesOf(parsed.value), render(parsed.value));
    r := Some(d);
  }
}
