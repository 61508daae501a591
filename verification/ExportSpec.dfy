/** SecretExport: its namespaces, its validation, and what counts as an offer to a namespace. */
module ExportSpec {
  import opened Kube

  const ALL_NAMESPACES := "*"

  function StaticToNamespaces(s: Spec): (nses: seq<string>)
    ensures forall ns :: ns in nses <==> ns in s.toNamespaces || (ns == s.toNamespace && ns != "")
  {
    s.toNamespaces + (if |s.toNamespace| > 0 then [s.toNamespace] else [])
  }

  datatype ValidationError = NoTarget | EmptyNamespace | ValuesMissing | ValuesForbidden

  function SelectorError(s: Selector): Option<ValidationError> {
    if (s.operator.In? || s.operator.NotIn?) && |s.values| == 0 then Some(ValuesMissing)
    else if (s.operator.Exists? || s.operator.DoesNotExist?) && |s.values| > 0 then Some(ValuesForbidden)
    else None
  }

  /** A usable export: it has a target, no target is the empty name, and each selector has the values its operator
      takes. */
  predicate ValidSpec(s: Spec) {
    && (StaticToNamespaces(s) != [] || s.selectors != [])
    && "" !in s.toNamespaces
    && forall i :: 0 <= i < |s.selectors| ==> SelectorError(s.selectors[i]).None?
  }

  /** The same in the terms of the spec alone. */
  lemma UsableIff(s: Spec)
    ensures ValidSpec(s) <==>
            && (s.toNamespaces != [] || s.toNamespace != "" || s.selectors != [])
            && "" !in s.toNamespaces
            && forall sel :: sel in s.selectors ==>
                 && (sel.operator in {In, NotIn} ==> sel.values != [])
                 && (sel.operator in {Exists, DoesNotExist} ==> sel.values == [])
  {
    assert forall i :: 0 <= i < |s.selectors| ==> s.selectors[i] in s.selectors;
  }

  /** Each error is reported when its own rule is broken, and only then. */
  ghost predicate Reports(errs: seq<ValidationError>, s: Spec) {
    && (NoTarget in errs <==> s.toNamespaces == [] && s.toNamespace == "" && s.selectors == [])
    && (EmptyNamespace in errs <==> "" in s.toNamespaces)
    && (ValuesMissing in errs <==> exists sel :: sel in s.selectors && sel.operator in {In, NotIn} && sel.values == [])
    && (ValuesForbidden in errs <==>
        exists sel :: sel in s.selectors && sel.operator in {Exists, DoesNotExist} && sel.values != [])
  }

  /** Whether a selector among the first i has the error. */
  ghost predicate Faulty(s: Spec, i: nat, e: ValidationError) {
    exists j :: 0 <= j < i && j < |s.selectors| && SelectorError(s.selectors[j]) == Some(e)
  }

  lemma ReportsAll(errs: seq<ValidationError>, s: Spec)
    requires NoTarget in errs <==> StaticToNamespaces(s) == [] && s.selectors == []
    requires EmptyNamespace in errs <==> "" in s.toNamespaces
    requires forall e :: e in {ValuesMissing, ValuesForbidden} ==> (e in errs <==> Faulty(s, |s.selectors|, e))
    ensures Reports(errs, s) && (errs == [] <==> ValidSpec(s))
  {
    FaultyIff(s, ValuesMissing);
    FaultyIff(s, ValuesForbidden);
    forall i | 0 <= i < |s.selectors| && SelectorError(s.selectors[i]).Some?
      ensures SelectorError(s.selectors[i]).value in errs
    {
      assert Faulty(s, |s.selectors|, SelectorError(s.selectors[i]).value);
    }
    if errs != [] {
      assert errs[0] in errs;
      match errs[0]
      case NoTarget =>
      case EmptyNamespace =>
      case ValuesMissing =>
      case ValuesForbidden =>
    }
    assert ValuesMissing in errs <==> Faulty(s, |s.selectors|, ValuesMissing);
    assert ValuesForbidden in errs <==> Faulty(s, |s.selectors|, ValuesForbidden);
  }

  lemma FaultyIff(s: Spec, e: ValidationError)
    ensures Faulty(s, |s.selectors|, e) <==> exists sel :: sel in s.selectors && SelectorError(sel) == Some(e)
  {
    if sel :| sel in s.selectors && SelectorError(sel) == Some(e) {
      var j :| 0 <= j < |s.selectors| && s.selectors[j] == sel;
      assert Faulty(s, |s.selectors|, e);
    }
  }

  /** The loops of Validate: they collect an error exactly when the spec is unusable, and the errors say why. */
  method Validate(s: Spec) returns (errs: seq<ValidationError>)
    ensures errs == [] <==> ValidSpec(s)
    ensures Reports(errs, s)
  {
    errs := [];
    var toNses := StaticToNamespaces(s);
    if |toNses| == 0 && |s.selectors| == 0 {
      errs := errs + [NoTarget];
    }
    for i := 0 to |toNses|
      invariant NoTarget in errs <==> toNses == [] && s.selectors == []
      invariant EmptyNamespace in errs <==> "" in toNses[..i]
      invariant ValuesMissing !in errs && ValuesForbidden !in errs
    {
      if |toNses[i]| == 0 {
        errs := errs + [EmptyNamespace];
      }
      assert toNses[..i + 1] == toNses[..i] + [toNses[i]];
    }
    assert toNses[..|toNses|] == toNses;
    assert "" !in toNses <==> "" !in s.toNamespaces;
    for i := 0 to |s.selectors|
      invariant NoTarget in errs <==> toNses == [] && s.selectors == []
      invariant EmptyNamespace in errs <==> "" in s.toNamespaces
      invariant forall e :: e in {ValuesMissing, ValuesForbidden} ==> (e in errs <==> Faulty(s, i, e))
    {
      ghost var before := errs;
      match SelectorError(s.selectors[i]) {
        case Some(e) => errs := errs + [e];
        case None =>
      }
      forall e | e in {ValuesMissing, ValuesForbidden} ensures e in errs <==> Faulty(s, i + 1, e) {
        if SelectorError(s.selectors[i]) == Some(e) { assert Faulty(s, i + 1, e); }
        if Faulty(s, i, e) { assert Faulty(s, i + 1, e); }
      }
    }
    ReportsAll(errs, s);
  }

  /** One selector against the printed field of the namespace. */
  predicate SelectorHolds(s: Selector, value: string) {
    match s.operator
    case In => value in s.values
    case NotIn => value !in s.values
    case Exists => value != ""
    case DoesNotExist => value == ""
    case Unknown => true
  }

  /** What a query sees of the namespace it asks for. */
  datatype View = View(excluded: bool, fields: Fields)

  /** The two reads of the namespace and what becomes of their errors: a failed exclusion check says that the
      namespace is not excluded, and selectors are matched against an empty object. */
  function ViewOf(exclusion: Option<bool>, fields: Option<Fields>, blank: Fields): (v: View)
    ensures exclusion.None? ==> !v.excluded
    ensures fields.None? ==> v.fields == blank
    ensures exclusion.Some? && fields.Some? ==> v == View(exclusion.value, fields.value)
  {
    View(exclusion.GetOr(false), fields.GetOr(blank))
  }

  predicate MatchNamespace(selectors: seq<Selector>, fields: Fields) {
    forall i :: 0 <= i < |selectors| ==>
      var v := FieldValue(fields, selectors[i].key);
      v.Some? && SelectorHolds(selectors[i], v.value)
  }

  /** The loops over the values of In and NotIn. */
  method Listed(values: seq<string>, value: string) returns (found: bool)
    ensures found <==> value in values
  {
    for i := 0 to |values|
      invariant value !in values[..i]
    {
      if values[i] == value {
        return true;
      }
      assert values[..i + 1] == values[..i] + [values[i]];
    }
    assert values[..|values|] == values;
    return false;
  }

  /** The loop over the selectors: the first that fails decides. */
  method AllSelectorsHold(selectors: seq<Selector>, fields: Fields) returns (ok: bool)
    ensures ok <==> MatchNamespace(selectors, fields)
  {
    for i := 0 to |selectors|
      invariant MatchNamespace(selectors[..i], fields)
    {
      var s := selectors[i];
      var v := FieldValue(fields, s.key);
      if v.None? {
        return false;
      }
      var listed := Listed(s.values, v.value);
      if (s.operator.In? && !listed) || (s.operator.NotIn? && listed)
         || (s.operator.Exists? && v.value == "") || (s.operator.DoesNotExist? && v.value != "") {
        return false;
      }
    }
    return true;
  }

  /** The spec offers its secret to the namespace: by name, by an unexcluded wildcard, or by its selectors. */
  predicate OfferedTo(s: Spec, ns: string, v: View) {
    || ns in StaticToNamespaces(s)
    || (ALL_NAMESPACES in StaticToNamespaces(s) && !v.excluded)
    || (s.selectors != [] && MatchNamespace(s.selectors, v.fields))
  }

  /** The loop over the listed namespaces: by name or by an unexcluded wildcard, whichever comes first. */
  method MatchesNamespace(s: Spec, nsToMatch: string, excluded: bool) returns (ok: bool)
    ensures ok <==> nsToMatch in StaticToNamespaces(s) || (ALL_NAMESPACES in StaticToNamespaces(s) && !excluded)
  {
    var nses := StaticToNamespaces(s);
    for i := 0 to |nses|
      invariant nsToMatch !in nses[..i] && (ALL_NAMESPACES in nses[..i] ==> excluded)
    {
      if nses[i] == nsToMatch {
        return true;
      }
      if nses[i] == ALL_NAMESPACES && !excluded {
        return true;
      }
      assert nses[..i + 1] == nses[..i] + [nses[i]];
    }
    assert nses[..|nses|] == nses;
    return false;
  }

  /** Excluding a namespace takes an offer from it exactly when it was offered by the wildcard alone, and never
      gives it one. */
  lemma ExclusionMatters(s: Spec, ns: string, fields: Fields)
    ensures OfferedTo(s, ns, View(true, fields)) ==> OfferedTo(s, ns, View(false, fields))
    ensures OfferedTo(s, ns, View(false, fields)) && !OfferedTo(s, ns, View(true, fields)) <==>
              && (ALL_NAMESPACES in s.toNamespaces || s.toNamespace == ALL_NAMESPACES)
              && ns !in s.toNamespaces && (s.toNamespace == "" || ns != s.toNamespace)
              && !(s.selectors != [] && MatchNamespace(s.selectors, fields))
  {
    assert ns in StaticToNamespaces(s) <==> ns in s.toNamespaces || (ns == s.toNamespace && ns != "");
  }

  // ---- what a spec offers, in the terms of the spec alone ----

  /** Named namespaces are offered the secret whatever is seen of them; the wildcard reaches the others but the
      excluded. */
  lemma StaticOffers(s: Spec, ns: string, v: View)
    requires s.selectors == []
    ensures OfferedTo(s, ns, v) <==>
            || ns in s.toNamespaces || (s.toNamespace == ns && ns != "")
            || (("*" in s.toNamespaces || s.toNamespace == "*") && !v.excluded)
  {
  }

  /** A spec with one selector and nothing else: In and NotIn look the field up in their values, Exists and
      DoesNotExist ask whether it is there, and a key that does not parse matches nothing. */
  lemma SelectorOffers(s: Selector, ns: string, v: View)
    ensures
      var offered := OfferedTo(Spec("", [], [s]), ns, v);
      && (s.key !in v.fields && s.operator.In? ==> (offered <==> "" in s.values))
      && (s.key !in v.fields && s.operator.NotIn? ==> (offered <==> "" !in s.values))
      && (s.key !in v.fields && s.operator.Exists? ==> !offered)
      && (s.key !in v.fields && s.operator.DoesNotExist? ==> offered)
      && (s.key in v.fields && v.fields[s.key].None? ==> !offered)
      && (s.key in v.fields && v.fields[s.key].Some? ==>
            var field := v.fields[s.key].value;
            && (s.operator.In? ==> (offered <==> field in s.values))
            && (s.operator.NotIn? ==> (offered <==> field !in s.values))
            && (s.operator.Exists? ==> (offered <==> field != ""))
            && (s.operator.DoesNotExist? ==> (offered <==> field == "")))
  {
    assert StaticToNamespaces(Spec("", [], [s])) == [];
    assert [s][0] == s;
  }

  /** Selectors must all hold. */
  lemma SelectorsConjoin(a: seq<Selector>, b: seq<Selector>, ns: string, v: View)
    requires a != [] && b != []
    ensures OfferedTo(Spec("", [], a + b), ns, v) <==>
            OfferedTo(Spec("", [], a), ns, v) && OfferedTo(Spec("", [], b), ns, v)
  {
    assert forall i :: 0 <= i < |a| ==> (a + b)[i] == a[i];
    assert forall i :: 0 <= i < |b| ==> (a + b)[|a| + i] == b[i];
  }

  /** Names, wildcard and selectors are alternatives. */
  lemma OffersAreAlternatives(s: Spec, ns: string, v: View)
    ensures OfferedTo(s, ns, v) <==>
            OfferedTo(s.(selectors := []), ns, v) || (s.selectors != [] && OfferedTo(Spec("", [], s.selectors), ns, v))
  {
    assert StaticToNamespaces(Spec("", [], s.selectors)) == [];
  }
}
