/**
 * Configuration trees: the values a YAML document loads into and the
 * program's constant configuration dictionaries are made of.
 */
module Trees {
  import opened Wrappers
  import opened Dicts

  datatype Tree =
    | Null                                      // None
    | Bool(bval: bool)
    | Int(ival: int)
    | Float(fval: real)
    | Str(sval: string)
    | List(items: seq<Tree>)
    | Map(entries: Dict<Tree>)                  // dict, in insertion order
    | Other(typeName: string, members: seq<Tree>)  // set, tuple, ...: any other container

  /** None, str, int, float and bool: the values the merge overrides wholesale. */
  predicate IsScalar(t: Tree)
  {
    t.Null? || t.Bool? || t.Int? || t.Float? || t.Str?
  }

  /** Python truthiness. */
  predicate Truthy(t: Tree)
  {
    match t
    case Null => false
    case Bool(b) => b
    case Int(i) => i != 0
    case Float(f) => f != 0.0
    case Str(s) => s != []
    case List(items) => items != []
    case Map(entries) => entries != []
    case Other(_, members) => members != []
  }

  /** The name of the Python type of a value, as `type(t)` prints it. */
  function TypeName(t: Tree): string
  {
    match t
    case Null => "<class 'NoneType'>"
    case Bool(_) => "<class 'bool'>"
    case Int(_) => "<class 'int'>"
    case Float(_) => "<class 'float'>"
    case Str(_) => "<class 'str'>"
    case List(_) => "<class 'list'>"
    case Map(_) => "<class 'dict'>"
    case Other(name, _) => "<class '" + name + "'>"
  }

  /** Every dictionary in the tree has distinct keys, as a loaded document does. */
  predicate WellFormed(t: Tree)
    decreases t, 1
  {
    match t
    case List(items) => forall i :: 0 <= i < |items| ==> WellFormed(items[i])
    case Map(es) => WellFormedItems(es)
    case Other(_, members) => forall i :: 0 <= i < |members| ==> WellFormed(members[i])
    case _ => true
  }

  /** The items of a well-formed dictionary: distinct keys, well-formed values. */
  predicate WellFormedItems(es: Dict<Tree>)
    decreases Map(es), 0
  {
    Distinct(es) && forall i :: 0 <= i < |es| ==> WellFormed(es[i].1)
  }

  /** The subtree at a path of dictionary keys: `t[p[0]][p[1]]...`. */
  function At(t: Tree, p: seq<string>): Option<Tree>
    decreases |p|
  {
    if p == [] then Some(t)
    else if t.Map? && p[0] in Keys(t.entries) then At(Get(t.entries, p[0]), p[1..])
    else None
  }

  /** Following `p` into `t` never passes through a list before the path ends. */
  predicate ListFree(t: Tree, p: seq<string>)
    decreases |p|
  {
    p == [] ||
    match t
    case List(_) => false
    case Map(es) => p[0] !in Keys(es) || ListFree(Get(es, p[0]), p[1..])
    case _ => true
  }

  /** A subtree of a well-formed tree is well-formed. */
  lemma {:induction false} WellFormedGet(es: Dict<Tree>, k: string)
    requires WellFormed(Map(es)) && k in Keys(es)
    ensures WellFormed(Get(es, k))
    decreases |es|
  {
    if es[0].0 != k {
      assert WellFormed(Map(es[1..])) by {
        forall i | 0 <= i < |es[1..]| ensures WellFormed(es[1..][i].1) {
          assert es[1..][i] == es[i + 1];
        }
      }
      WellFormedGet(es[1..], k);
    }
  }
}
