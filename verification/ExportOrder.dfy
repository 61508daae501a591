/** Which of several matching exports is preferred. */
module ExportOrder {
  import opened Kube
  import opened ExportSpec
  import opened ExportedSecrets

  /** Go's `>` on float64: false as soon as one side is not a number. */
  predicate Gt(a: Float, b: Float) {
    match (a, b)
    case (NaN, _) => false
    case (_, NaN) => false
    case (PosInf, _) => !b.PosInf?
    case (_, NegInf) => !a.NegInf?
    case (Finite(r), Finite(s)) => r > s
    case (_, _) => false
  }

  /** Go's `<` on strings. */
  predicate StrLess(a: string, b: string) {
    b != [] && (a == [] || a[0] < b[0] || (a[0] == b[0] && StrLess(a[1..], b[1..])))
  }

  datatype SortKey = SortKey(weight: Float, withinToNs: bool, matchesToNsExactly: bool, secretNsName: string)

  function KeyFor(es: ExportedSecret, toNs: string): SortKey {
    SortKey(if es.weight.Some? then es.weight.value else Finite(0.0),
            es.secret.key.ns == toNs,
            toNs in StaticToNamespaces(es.spec),
            NsName(es.secret.key))
  }

  /** `k` is preferred to `other`. */
  predicate Less(k: SortKey, other: SortKey) {
    if Gt(k.weight, other.weight) then true
    else if Gt(other.weight, k.weight) then false
    else if k.withinToNs && !other.withinToNs then true
    else if !k.withinToNs && other.withinToNs then false
    else if k.matchesToNsExactly && !other.matchesToNsExactly then true
    else if !k.matchesToNsExactly && other.matchesToNsExactly then false
    else StrLess(other.secretNsName, k.secretNsName)
  }

  lemma {:induction false} StrLessIrreflexive(a: string)
    ensures !StrLess(a, a)
  {
    if a != [] { StrLessIrreflexive(a[1..]); }
  }

  lemma {:induction false} StrLessTransitive(a: string, b: string, c: string)
    requires StrLess(a, b) && StrLess(b, c)
    ensures StrLess(a, c)
  {
    if a != [] && a[0] == b[0] && b[0] == c[0] { StrLessTransitive(a[1..], b[1..], c[1..]); }
  }

  lemma {:induction false} StrLessTotal(a: string, b: string)
    ensures a == b || StrLess(a, b) || StrLess(b, a)
  {
    if a != [] && b != [] && a[0] == b[0] {
      StrLessTotal(a[1..], b[1..]);
      assert a == [a[0]] + a[1..] && b == [b[0]] + b[1..];
    }
  }

  /** The order of a dictionary: at the first difference, or at the end of the shorter. */
  lemma {:induction false} StrLessMeans(a: string, b: string)
    ensures StrLess(a, b) <==>
            exists i :: 0 <= i <= |a| && i < |b| && a[..i] == b[..i] && (i == |a| || a[i] < b[i])
  {
    if a == [] || b == [] || a[0] != b[0] {
      if StrLess(a, b) { assert a[..0] == b[..0]; }
    } else {
      StrLessMeans(a[1..], b[1..]);
      if i :| && 0 <= i <= |a| - 1 && i < |b| - 1 && a[1..][..i] == b[1..][..i]
              && (i == |a| - 1 || a[1..][i] < b[1..][i])
      {
        assert a[..i + 1] == [a[0]] + a[1..][..i] && b[..i + 1] == [b[0]] + b[1..][..i];
      }
      if i :| 0 < i <= |a| && i < |b| && a[..i] == b[..i] && (i == |a| || a[i] < b[i]) {
        assert a[1..][..i - 1] == a[..i][1..] && b[1..][..i - 1] == b[..i][1..];
      }
    }
  }

  /** On keys whose weights are numbers, preference is a strict total order up to the name of the secret. */
  lemma LessIsTotalOrder(a: SortKey, b: SortKey, c: SortKey)
    requires !a.weight.NaN? && !b.weight.NaN? && !c.weight.NaN?
    ensures !Less(a, a)
    ensures Less(a, b) && Less(b, c) ==> Less(a, c)
    ensures a.secretNsName != b.secretNsName ==> Less(a, b) || Less(b, a)
  {
    StrLessIrreflexive(a.secretNsName);
    StrLessTotal(a.secretNsName, b.secretNsName);
    if StrLess(b.secretNsName, a.secretNsName) && StrLess(c.secretNsName, b.secretNsName) {
      StrLessTransitive(c.secretNsName, b.secretNsName, a.secretNsName);
    }
  }

  /** A key fits into the order of all keys with numeric weights. */
  ghost predicate FitsIn(k: SortKey) {
    forall a: SortKey, b: SortKey :: !a.weight.NaN? && !b.weight.NaN? && Less(a, k) && Less(k, b) ==> Less(a, b)
  }

  lemma {:induction false} PrefixLess(s: string)
    ensures StrLess(s, s + "a")
  {
    if s != [] {
      PrefixLess(s[1..]);
      assert (s + "a")[1..] == s[1..] + "a";
    }
  }

  /** A weight "NaN" breaks the order, and nothing else does. */
  lemma FitsInIffNumber(k: SortKey)
    requires k.secretNsName != ""
    ensures FitsIn(k) <==> !k.weight.NaN?
  {
    if k.weight.NaN? {
      var a := k.(weight := Finite(0.0), secretNsName := k.secretNsName + "a");
      var b := k.(weight := Finite(1.0), secretNsName := "");
      PrefixLess(k.secretNsName);
      assert Less(a, k) && Less(k, b) && !Less(a, b);
    } else {
      forall a: SortKey, b: SortKey | !a.weight.NaN? && !b.weight.NaN? && Less(a, k) && Less(k, b) ensures Less(a, b) {
        LessIsTotalOrder(a, k, b);
      }
    }
  }
}
