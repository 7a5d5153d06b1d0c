/**
 * The parsed expression tree as the SQL gate sees it, and the fixed policy constants
 * of web/dbqueryapp/constants.py.  The tree is produced by the parsing library and is
 * opaque except for each node's kind and its children.
 */
module SqlTree {
  import opened PyStr

  /** Node kinds: the eleven mutating kinds of DISALLOWED_OPERATIONS, then the others. */
  datatype Kind =
    | Insert | Update | Delete | Drop | Alter | Create | TruncateTable | Merge | Grant | Revoke | Replace
    | Select | Subquery | With | Cte | Union | Table | Column | Literal | Other(name: string)

  datatype Node = Node(kind: Kind, children: seq<Node>)

  /** DISALLOWED_OPERATIONS, in its declared order. */
  const DisallowedOperations: seq<Kind> :=
    [Insert, Update, Delete, Drop, Alter, Create, TruncateTable, Merge, Grant, Revoke, Replace]

  /** ALLOWED_SQL_KEYWORDS. */
  const AllowedSqlKeywords: seq<string> := ["SELECT", "WITH"]

  /** `isinstance(node, DISALLOWED_OPERATIONS)`. */
  predicate IsDisallowed(k: Kind) {
    k in DisallowedOperations
  }

  /** The class name of a kind (`op.__name__`). */
  function KindName(k: Kind): string {
    match k
    case Insert => "Insert"
    case Update => "Update"
    case Delete => "Delete"
    case Drop => "Drop"
    case Alter => "Alter"
    case Create => "Create"
    case TruncateTable => "TruncateTable"
    case Merge => "Merge"
    case Grant => "Grant"
    case Revoke => "Revoke"
    case Replace => "Replace"
    case Select => "Select"
    case Subquery => "Subquery"
    case With => "With"
    case Cte => "CTE"
    case Union => "Union"
    case Table => "Table"
    case Column => "Column"
    case Literal => "Literal"
    case Other(n) => n
  }

  function KindNames(ks: seq<Kind>): (r: seq<string>)
    ensures |r| == |ks|
    ensures forall i :: 0 <= i < |ks| ==> r[i] == KindName(ks[i])
  {
    seq(|ks|, i requires 0 <= i < |ks| => KindName(ks[i]))
  }

  function Flatten(xss: seq<seq<Node>>): seq<Node> {
    if xss == [] then [] else xss[0] + Flatten(xss[1..])
  }

  lemma {:induction false} FlattenMember(xss: seq<seq<Node>>, n: Node)
    ensures n in Flatten(xss) <==> exists i :: 0 <= i < |xss| && n in xss[i]
  {
    if xss != [] {
      FlattenMember(xss[1..], n);
      assert forall i :: 1 <= i < |xss| ==> xss[i] == xss[1..][i - 1];
    }
  }

  /**
   * Every node of the tree, each once per occurrence, starting with the root
   * (`Expression.walk()`, taken here in pre-order).
   */
  function Walk(t: Node): (r: seq<Node>)
    ensures |r| >= 1 && r[0] == t
    decreases t
  {
    [t] + Flatten(seq(|t.children|, i requires 0 <= i < |t.children| => Walk(t.children[i])))
  }

  /** `n` is `t` or a node anywhere below it. */
  ghost predicate IsSubtree(n: Node, t: Node)
    decreases t
  {
    n == t || exists i :: 0 <= i < |t.children| && IsSubtree(n, t.children[i])
  }

  /** Some node anywhere in the tree has a disallowed kind. */
  predicate ContainsDisallowed(t: Node)
    decreases t
  {
    IsDisallowed(t.kind) || exists i :: 0 <= i < |t.children| && ContainsDisallowed(t.children[i])
  }

  /** The walk visits exactly the subtrees of the tree. */
  lemma {:induction false} WalkVisitsSubtrees(t: Node, n: Node)
    ensures n in Walk(t) <==> IsSubtree(n, t)
    decreases t
  {
    var parts := seq(|t.children|, i requires 0 <= i < |t.children| => Walk(t.children[i]));
    FlattenMember(parts, n);
    forall i | 0 <= i < |t.children|
      ensures n in parts[i] <==> IsSubtree(n, t.children[i])
    {
      WalkVisitsSubtrees(t.children[i], n);
    }
  }

  /** A disallowed kind is found by the walk iff it occurs somewhere in the tree. */
  lemma {:induction false} WalkFindsDisallowed(t: Node)
    ensures (exists n :: n in Walk(t) && IsDisallowed(n.kind)) <==> ContainsDisallowed(t)
    decreases t
  {
    if ContainsDisallowed(t) {
      if !IsDisallowed(t.kind) {
        var i :| 0 <= i < |t.children| && ContainsDisallowed(t.children[i]);
        WalkFindsDisallowed(t.children[i]);
        var n :| n in Walk(t.children[i]) && IsDisallowed(n.kind);
        WalkVisitsSubtrees(t.children[i], n);
        WalkVisitsSubtrees(t, n);
      }
    }
    if exists n :: n in Walk(t) && IsDisallowed(n.kind) {
      var n :| n in Walk(t) && IsDisallowed(n.kind);
      WalkVisitsSubtrees(t, n);
      SubtreeDisallowed(n, t);
    }
  }

  lemma {:induction false} SubtreeDisallowed(n: Node, t: Node)
    requires IsSubtree(n, t) && IsDisallowed(n.kind)
    ensures ContainsDisallowed(t)
    decreases t
  {
    if n != t {
      var i :| 0 <= i < |t.children| && IsSubtree(n, t.children[i]);
      SubtreeDisallowed(n, t.children[i]);
    }
  }
}
