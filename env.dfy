/** The variable environment of src/statement.rs as values: a stack of
    scopes stored outermost first, the last one innermost. The class
    Statement.State holds such a sequence; these functions give the meaning
    of its lookup and in-place update. */
module Env {
  import opened Ast
  import opened Results

  /** One lexical level's bindings. */
  type Scope = map<string, Atom>

  /** Scope k holds the name and no scope after it (further in) does. */
  ghost predicate InnermostAt(scopes: seq<Scope>, name: string, k: nat) {
    k < |scopes| && name in scopes[k] && forall j :: k < j < |scopes| ==> name !in scopes[j]
  }

  /** Scope k holds the name and no scope before it (further out) does. */
  ghost predicate OutermostAt(scopes: seq<Scope>, name: string, k: nat) {
    k < |scopes| && name in scopes[k] && forall j :: 0 <= j < k ==> name !in scopes[j]
  }

  ghost predicate Unbound(scopes: seq<Scope>, name: string) {
    forall i :: 0 <= i < |scopes| ==> name !in scopes[i]
  }

  /** The index of the last scope, counting from the outermost, that holds
      the name: the scopes are searched from the innermost outwards. */
  function Innermost(scopes: seq<Scope>, name: string): (r: Option<nat>)
    ensures r.None? <==> Unbound(scopes, name)
    ensures r.Some? ==> InnermostAt(scopes, name, r.value)
    decreases |scopes|
  {
    if |scopes| == 0 then None
    else if name in scopes[|scopes| - 1] then Some(|scopes| - 1)
    else
      var init := scopes[..|scopes| - 1];
      assert forall i :: 0 <= i < |init| ==> init[i] == scopes[i];
      Innermost(init, name)
  }

  /** get_variable: the binding of the innermost scope that holds the name,
      or None when no scope does. */
  function Lookup(scopes: seq<Scope>, name: string): (r: Option<Atom>)
    ensures r.None? <==> Unbound(scopes, name)
    ensures forall k: nat :: InnermostAt(scopes, name, k) ==> r == Some(scopes[k][name])
  {
    match Innermost(scopes, name)
    case None => None
    case Some(k) => Some(scopes[k][name])
  }

  /** The index of the first scope, counting from the outermost, that holds the name. */
  function Outermost(scopes: seq<Scope>, name: string): (r: Option<nat>)
    ensures r.None? <==> Unbound(scopes, name)
    ensures r.Some? ==> OutermostAt(scopes, name, r.value)
    decreases |scopes|
  {
    if |scopes| == 0 then None
    else if name in scopes[0] then Some(0)
    else
      match Outermost(scopes[1..], name)
      case None => None
      case Some(k) => Some(k + 1)
  }

  /** The scopes after modify_variable: only the outermost scope holding the
      name is overwritten; with no such scope nothing changes. */
  function Modified(scopes: seq<Scope>, name: string, val: Atom): (r: seq<Scope>)
    ensures |r| == |scopes|
    ensures Unbound(scopes, name) ==> r == scopes
    ensures forall k: nat :: OutermostAt(scopes, name, k) ==>
              r[k] == scopes[k][name := val] &&
              forall j :: 0 <= j < |scopes| && j != k ==> r[j] == scopes[j]
  {
    match Outermost(scopes, name)
    case None => scopes
    case Some(k) => scopes[k := scopes[k][name := val]]
  }

  /** No two indices are both the outermost (or both the innermost) holder of a name. */
  lemma HolderUnique(scopes: seq<Scope>, name: string, k: nat, k': nat)
    ensures OutermostAt(scopes, name, k) && OutermostAt(scopes, name, k') ==> k == k'
    ensures InnermostAt(scopes, name, k) && InnermostAt(scopes, name, k') ==> k == k'
  {
  }

  /** Shadowing: when two scopes hold the name, lookup reads one scope and
      modification writes another, further out. */
  lemma ShadowedReadAndWriteDiffer(scopes: seq<Scope>, name: string, i: nat, j: nat)
    requires i < j < |scopes| && name in scopes[i] && name in scopes[j]
    ensures Outermost(scopes, name).Some?
    ensures forall k: nat :: InnermostAt(scopes, name, k) ==> Outermost(scopes, name).value < k
  {
  }

  /** Under shadowing, modification is invisible to lookup: the write lands
      in the outermost holder while the innermost one keeps its value. */
  lemma ShadowedModifyInvisible(scopes: seq<Scope>, name: string, val: Atom, i: nat, j: nat)
    requires i < j < |scopes| && name in scopes[i] && name in scopes[j]
    ensures Lookup(Modified(scopes, name, val), name) == Lookup(scopes, name)
    ensures Modified(scopes, name, val)[Outermost(scopes, name).value][name] == val
  {
    ShadowedReadAndWriteDiffer(scopes, name, i, j);
    var k := Innermost(scopes, name).value;
    var o := Outermost(scopes, name).value;
    var r := Modified(scopes, name, val);
    assert r[k] == scopes[k];
    assert forall m :: k < m < |scopes| ==> r[m] == scopes[m];
    assert InnermostAt(r, name, k);
  }

  /** With a single holder, modification is what the next lookup reads. */
  lemma UnshadowedModifyVisible(scopes: seq<Scope>, name: string, val: Atom, k: nat)
    requires InnermostAt(scopes, name, k) && OutermostAt(scopes, name, k)
    ensures Lookup(Modified(scopes, name, val), name) == Some(val)
  {
    assert InnermostAt(Modified(scopes, name, val), name, k);
  }

  /** Dropping an innermost scope that does not hold the name leaves its lookup unchanged. */
  lemma LookupPastInner(scopes: seq<Scope>, name: string)
    requires |scopes| > 0 && name !in scopes[|scopes| - 1]
    ensures Lookup(scopes[..|scopes| - 1], name) == Lookup(scopes, name)
  {
    var init := scopes[..|scopes| - 1];
    assert forall i :: 0 <= i < |init| ==> init[i] == scopes[i];
    assert Innermost(scopes, name) == Innermost(init, name);
  }

  /** Every scope holds the same names in both stacks. */
  predicate SameNames(a: seq<Scope>, b: seq<Scope>) {
    |a| == |b| && forall k :: 0 <= k < |a| ==> a[k].Keys == b[k].Keys
  }

  /** Modification never adds or removes a name. */
  lemma ModifiedKeepsNames(scopes: seq<Scope>, name: string, val: Atom)
    ensures SameNames(scopes, Modified(scopes, name, val))
  {
    match Outermost(scopes, name)
    case None =>
    case Some(k) =>
      assert scopes[k][name := val].Keys == scopes[k].Keys;
  }
}
