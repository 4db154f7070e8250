/**
 * `mask_secrets(secrets)`: a copy of a dictionary for logging in which every
 * str, int and bool value is replaced by "***" and every dictionary value is
 * masked recursively; other values are copied as they are. The input is not
 * changed.
 */
module Masking {
  import opened Wrappers
  import opened Dicts
  import opened Trees

  const Redacted: string := "***"

  /** What masking does to one value of the dictionary. */
  function MaskValue(v: Tree): Tree
  {
    match v
    case Str(_) => Str(Redacted)
    case Int(_) => Str(Redacted)
    case Bool(_) => Str(Redacted)
    case Map(es) => Map(seq(|es|, i requires 0 <= i < |es| => (es[i].0, MaskValue(es[i].1))))
    case _ => v
  }

  /**
   * The masked copy of a dictionary, by definition: each item with its value
   * masked, in the same order. What it promises is stated by `GetMasked`,
   * `MaskAt`, `MaskedLeaves` and `MaskIdempotent`.
   */
  function Masked(secrets: Dict<Tree>): (r: Dict<Tree>)
    ensures |r| == |secrets|
    ensures forall i :: 0 <= i < |secrets| ==> r[i] == (secrets[i].0, MaskValue(secrets[i].1))
  {
    MaskValue(Map(secrets)).entries
  }

  /** The loop of `mask_secrets`, filling a fresh dictionary. */
  method MaskSecrets(secrets: Dict<Tree>) returns (masked: Dict<Tree>)
    requires WellFormedItems(secrets)
    ensures masked == Masked(secrets)
    decreases Map(secrets)
  {
    masked := [];
    for i := 0 to |secrets|
      invariant masked == Masked(secrets)[..i]
      invariant Keys(masked) == Keys(secrets[..i])
    {
      var (key, value) := secrets[i];
      if value.Str? || value.Int? || value.Bool? {
        value := Str(Redacted);
      } else if value.Map? {
        var inner := MaskSecrets(value.entries);
        value := Map(inner);
      }
      assert value == MaskValue(secrets[i].1);
      PutNext(masked, secrets, i, value);
      MaskedPrefix(secrets, i);
      masked := Put(masked, key, value);
    }
  }

  lemma MaskedPrefix(secrets: Dict<Tree>, i: nat)
    requires i < |secrets|
    ensures Masked(secrets)[..i + 1] == Masked(secrets)[..i] + [(secrets[i].0, MaskValue(secrets[i].1))]
  {
  }

  lemma {:induction false} GetMasked(es: Dict<Tree>, k: string)
    requires k in Keys(es)
    ensures k in Keys(Masked(es)) && Get(Masked(es), k) == MaskValue(Get(es, k))
  {
    assert Masked(es)[1..] == Masked(es[1..]);
    if es[0].0 != k {
      GetMasked(es[1..], k);
    }
  }

  lemma {:induction false} KeysMasked(es: Dict<Tree>)
    ensures Keys(Masked(es)) == Keys(es)
  {
    if es != [] {
      assert Masked(es)[1..] == Masked(es[1..]);
      KeysMasked(es[1..]);
    }
  }

  /** The masked copy has the same keys, in the same order. */
  lemma MaskKeepsKeys(secrets: Dict<Tree>)
    ensures KeyList(Masked(secrets)) == KeyList(secrets)
  {
    KeyListKeys(secrets);
    KeyListKeys(Masked(secrets));
  }

  /**
   * Masking keeps the dictionary structure at every depth: a path of keys
   * leads somewhere in the copy exactly when it does in the original, and
   * there it finds the masked value of the original.
   */
  lemma {:induction false} MaskAt(t: Tree, p: seq<string>)
    ensures At(MaskValue(t), p).Some? <==> At(t, p).Some?
    ensures At(t, p).Some? ==> At(MaskValue(t), p) == Some(MaskValue(At(t, p).value))
    decreases |p|
  {
    if p != [] && t.Map? {
      KeysMasked(t.entries);
      if p[0] in Keys(t.entries) {
        GetMasked(t.entries, p[0]);
        MaskAt(Get(t.entries, p[0]), p[1..]);
      }
    }
  }

  /**
   * No str, int or bool reachable through dictionaries of a masked copy is
   * anything but "***".
   */
  lemma MaskedLeaves(secrets: Dict<Tree>, p: seq<string>)
    requires p != []
    requires At(Map(Masked(secrets)), p).Some?
    ensures var v := At(Map(Masked(secrets)), p).value;
      (v.Str? ==> v.sval == Redacted) && !v.Int? && !v.Bool?
  {
    MaskAt(Map(secrets), p);
  }

  /** Masking a masked copy changes nothing. */
  lemma {:induction false} MaskIdempotent(t: Tree)
    ensures MaskValue(MaskValue(t)) == MaskValue(t)
  {
    if t.Map? {
      var es := t.entries;
      forall i | 0 <= i < |es| ensures MaskValue(MaskValue(es[i].1)) == MaskValue(es[i].1) {
        MaskIdempotent(es[i].1);
      }
      assert MaskValue(MaskValue(t)).entries == MaskValue(t).entries;
    }
  }

  /** A dictionary of strings masks to the same keys, each holding "***". */
  lemma MaskStrings(es: Dict<Tree>)
    requires forall i :: 0 <= i < |es| ==> es[i].1.Str?
    ensures MaskValue(Map(es)) == Map(seq(|es|, i requires 0 <= i < |es| => (es[i].0, Str(Redacted))))
  {
  }

  /** The `mask_secrets` example, with the inner keys 3 and 4 written as strings. */
  lemma MaskExample()
    ensures var inner := Map([("3", Str("abc")), ("4", Str("abc"))]);
      var path := Map([("a", Str("abcdefghijklmnopqrstuvwxyz")), ("b", Str("abc")), ("c", inner)]);
      Masked([("path", path)]) ==
        [("path", Map([("a", Str(Redacted)), ("b", Str(Redacted)),
                       ("c", Map([("3", Str(Redacted)), ("4", Str(Redacted))]))]))]
  {
    var inner := [("3", Str("abc")), ("4", Str("abc"))];
    MaskStrings(inner);
    var maskedInner := Map([("3", Str(Redacted)), ("4", Str(Redacted))]);
    assert MaskValue(Map(inner)) == maskedInner;
    var path := [("a", Str("abcdefghijklmnopqrstuvwxyz")), ("b", Str("abc")), ("c", Map(inner))];
    assert Masked(path) == [("a", Str(Redacted)), ("b", Str(Redacted)), ("c", maskedInner)];
  }
}
