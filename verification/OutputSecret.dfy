/** The secret a generator or an importer is about to write. */
module OutputSecret {
  import opened Kube
  import opened Expansion

  datatype Template = Template(annotations: map<string, string>, labels: map<string, string>, typ: string,
                               stringData: map<string, Bytes>)

  datatype Contents = Contents(typ: string, data: map<string, Bytes>, labels: map<string, string>,
                               annotations: map<string, string>)

  function Expanded(text: Bytes, values: map<Bytes, Bytes>): Bytes {
    Render(Tokenize(text), MappingFuncFor([values]))
  }

  /** A template adds its metadata, and replaces type and data when it gives any. */
  function Templated(c: Contents, t: Template, values: map<Bytes, Bytes>): Contents {
    Contents(
      if |t.typ| > 0 then t.typ else c.typ,
      if |t.stringData| > 0 then map k | k in t.stringData :: Expanded(t.stringData[k], values) else c.data,
      c.labels + t.labels,
      c.annotations + t.annotations)
  }

  /** The loop over the template's texts, in any order. */
  method ExpandAll(stringData: map<string, Bytes>, values: map<Bytes, Bytes>) returns (newData: map<string, Bytes>)
    ensures newData == map k | k in stringData :: Expanded(stringData[k], values)
  {
    newData := map[];
    var keys := stringData.Keys;
    while keys != {}
      invariant keys <= stringData.Keys
      invariant newData == map k | k in stringData && k !in keys :: Expanded(stringData[k], values)
      decreases |keys|
    {
      var k :| k in keys;
      var text := Expand(stringData[k], MappingFuncFor([values]));
      newData := newData[k := text];
      keys := keys - {k};
    }
  }

  class OutputSecret {
    const owner: Key
    const values: map<Bytes, Bytes>
    var typ: string
    var data: map<string, Bytes>
    var labels: map<string, string>
    var annotations: map<string, string>

    function State(): Contents
      reads this
    {
      Contents(typ, data, labels, annotations)
    }

    constructor (owner: Key, labels: map<string, string>, annotations: map<string, string>, values: map<Bytes, Bytes>)
      ensures this.owner == owner && this.values == values && State() == Contents("", map[], labels, annotations)
    {
      this.owner, this.values := owner, values;
      this.typ, this.data := "", map[];
      this.labels, this.annotations := labels, annotations;
    }

    method ApplyTemplate(t: Template)
      modifies this
      ensures State() == Templated(old(State()), t, values)
    {
      annotations := annotations + t.annotations;
      labels := labels + t.labels;
      if |t.typ| > 0 {
        typ := t.typ;
      }
      if |t.stringData| > 0 {
        data := ExpandAll(t.stringData, values);
      }
    }

    method ApplyTemplates(defaultTemplate: Template, custom: Option<Template>)
      modifies this
      ensures
        var first := Templated(old(State()), defaultTemplate, values);
        State() == if custom.Some? then Templated(first, custom.value, values) else first
    {
      ApplyTemplate(defaultTemplate);
      if custom.Some? {
        ApplyTemplate(custom.value);
      }
    }

    /** Type and data of another secret on top of this one. */
    method ApplySecret(other: Secret)
      modifies this
      ensures State() == old(State()).(typ := other.typ, data := if |other.data| > 0 then other.data else old(data))
    {
      if |other.typ| > 0 {
        typ := other.typ;
      }
      if |other.data| > 0 {
        data := other.data;
      }
    }
  }

  // ---- two templates, one on top of the other ----

  function Either(first: string, second: string): string {
    if first != "" then first else second
  }

  /** Type, labels, annotations and data after both: each label and annotation is the custom template's if it has
      one, else the default's, else the owner's; type and data are those of the last that gives any. */
  lemma CustomOverDefault(c: Contents, d: Template, t: Template, values: map<Bytes, Bytes>, name: string)
    ensures
      var r := Templated(Templated(c, d, values), t, values);
      && r.typ == Either(t.typ, Either(d.typ, c.typ))
      && Lookup(r.labels, name) == Topmost(Lookup(t.labels, name), Lookup(d.labels, name), Lookup(c.labels, name))
      && Lookup(r.annotations, name) ==
           Topmost(Lookup(t.annotations, name), Lookup(d.annotations, name), Lookup(c.annotations, name))
      && (t.stringData != map[] ==> r.data == map k | k in t.stringData :: Expanded(t.stringData[k], values))
      && (t.stringData == map[] && d.stringData != map[] ==>
            r.data == map k | k in d.stringData :: Expanded(d.stringData[k], values))
      && (t.stringData == map[] && d.stringData == map[] ==> r.data == c.data)
  {
    Overlaid(c.labels, d.labels, t.labels, name);
    Overlaid(c.annotations, d.annotations, t.annotations, name);
    NoTexts(t);
    NoTexts(d);
  }

  function Topmost(a: Option<string>, b: Option<string>, c: Option<string>): Option<string> {
    if a.Some? then a else if b.Some? then b else c
  }

  lemma Overlaid(c: map<string, string>, d: map<string, string>, t: map<string, string>, name: string)
    ensures Lookup(c + d + t, name) == Topmost(Lookup(t, name), Lookup(d, name), Lookup(c, name))
  {
  }

  lemma NoTexts(t: Template)
    ensures t.stringData == map[] <==> |t.stringData| == 0
  {
  }

  // ---- the secret of a generated password ----

  /** The bytes of "value". */
  const PASSWORD_KEY: Bytes := [118, 97, 108, 117, 101]

  const PASSWORD_TEMPLATE :=
    Template(map[], map[], "kubernetes.io/basic-auth", map["password" := Variable(PASSWORD_KEY)])

  /** A generated password reaches its secret unchanged through the default template. */
  lemma PasswordDelivered(c: Contents, password: Bytes)
    ensures
      var r := Templated(c, PASSWORD_TEMPLATE, map[PASSWORD_KEY := password]);
      && r.data == map["password" := password] && r.typ == "kubernetes.io/basic-auth"
      && r.labels == c.labels && r.annotations == c.annotations
  {
    PasswordText(password);
    OneText(c, PASSWORD_TEMPLATE, "password", Variable(PASSWORD_KEY), map[PASSWORD_KEY := password]);
  }

  lemma OneText(c: Contents, t: Template, k: string, text: Bytes, values: map<Bytes, Bytes>)
    requires t.stringData == map[k := text] && t.labels == map[] && t.annotations == map[]
    ensures
      var r := Templated(c, t, values);
      r.data == map[k := Expanded(text, values)] && r.labels == c.labels && r.annotations == c.annotations
  {
    NoTexts(t);
    assert k in t.stringData;
    OneEntry(Templated(c, t, values).data, k, Expanded(text, values));
  }

  lemma OneEntry(data: map<string, Bytes>, k: string, v: Bytes)
    requires data.Keys == {k} && data[k] == v
    ensures data == map[k := v]
  {
  }

  lemma PasswordText(password: Bytes)
    ensures Expanded(Variable(PASSWORD_KEY), map[PASSWORD_KEY := password]) == password
  {
    PlainNameExpands(PASSWORD_KEY, MappingFuncFor([map[PASSWORD_KEY := password]]));
    FirstContextDecides([map[PASSWORD_KEY := password]], 0, PASSWORD_KEY);
  }

  /** A template of the user's own delivers it between the texts around the reference, and its data replaces the
      default. */
  lemma CustomTemplateDelivers(c: Contents, t: Template, k: string, before: Bytes, after: Bytes, password: Bytes)
    requires k in t.stringData && t.stringData[k] == Escape(before) + Variable(PASSWORD_KEY) + Escape(after)
    ensures
      var data := Templated(c, t, map[PASSWORD_KEY := password]).data;
      k in data && data[k] == before + password + after && data.Keys == t.stringData.Keys
  {
    ValueIsNotReadAgain(before, PASSWORD_KEY, after, MappingFuncFor([map[PASSWORD_KEY := password]]));
  }

  /** A reference the secret has no value for stays in the text, beside those that it has. */
  lemma UnknownReferenceStays(c: Contents, t: Template, k: string, before: Bytes, name: Bytes, after: Bytes,
                              values: map<Bytes, Bytes>)
    requires name !in values && 41 !in name
    requires k in t.stringData && t.stringData[k] == Escape(before) + ([36, 40] + name + [41]) + Escape(after)
    ensures
      var data := Templated(c, t, values).data;
      k in data && data[k] == before + ([36, 40] + name + [41]) + after
  {
    MissingStaysInTemplate([values], before, name, after);
  }

  lemma HostReference(host: Bytes)
    requires host == [104, 111, 115, 116]
    ensures [64] + ([36, 40] + host + [41]) == [64, 36, 40, 104, 111, 115, 116, 41]
    ensures TWO_REFERENCES == Variable(PASSWORD_KEY) + ([64] + Variable(host))
  {
  }

  /** The bytes of "$(value)@$(host)". */
  const TWO_REFERENCES: Bytes :=
    [36, 40, 118, 97, 108, 117, 101, 41, 64, 36, 40, 104, 111, 115, 116, 41]

  /** With a value for the first alone: the value, and the rest as it is. */
  lemma OneOfTwoReferences(password: Bytes)
    ensures Expanded(TWO_REFERENCES, map[PASSWORD_KEY := password]) == password + [64, 36, 40, 104, 111, 115, 116, 41]
  {
    var host: Bytes, values := [104, 111, 115, 116], map[PASSWORD_KEY := password];
    TwoReferences(PASSWORD_KEY, 64, host, MappingFuncFor([values]));
    MissingIsReference([values], host);
    FirstContextDecides([values], 0, PASSWORD_KEY);
    HostReference(host);
  }
}
