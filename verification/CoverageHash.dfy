/** What the coverage hash identifies (src/agent-discovery-catalog.ts): under a hash function
    without collisions, the catalogue, the baselines, the sorted bindings and the workflows. */
module CoverageHash {
  import opened Lists
  import opened Options
  import opened Coverage
  import opened CoverageReport
  import opened CanonicalJson

  ghost predicate HasNoCollisions(f: string -> string) {
    forall x, y :: f(x) == f(y) ==> x == y
  }

  /** A JSON value that the canonical text tells from every other value. */
  ghost predicate IsIdentified(v: Json) {
    Valid(v) && NoLoneUndefined(v)
  }

  // --- Records ---

  lemma SameMember(ms: seq<CanonicalJson.Member>, ns: seq<CanonicalJson.Member>, i: nat)
    requires EqualUpToKeyOrder(Object(ms), Object(ns))
    requires i < |ms| && i < |ns| && ms[i].key == ns[i].key
    ensures EqualUpToKeyOrder(ms[i].value, ns[i].value)
  {
  }

  // --- Lists of strings ---

  lemma StringsAreIdentified(s: seq<string>)
    ensures IsIdentified(Array(Map(StringJson, s)))
  {
  }

  lemma StringsIdentify(s: seq<string>, t: seq<string>)
    ensures EqualUpToKeyOrder(Array(Map(StringJson, s)), Array(Map(StringJson, t))) <==> s == t
  {
    var xs, ys := Map(StringJson, s), Map(StringJson, t);
    if EqualUpToKeyOrder(Array(xs), Array(ys)) {
      forall i | 0 <= i < |s| ensures s[i] == t[i] {
        assert EqualUpToKeyOrder(xs[i], ys[i]);
      }
    }
  }

  // --- Bindings ---

  lemma BindingKeysDiffer(b: Binding)
    ensures DistinctKeys(BindingJson(b).members)
  {
    var keys := ["id", "capabilityIds", "safety", "idempotent", "requiresActor", "requiresConfirmation", "retryClass"];
    assert keys[1][0] == 'c' && keys[3][1] == 'd' && keys[4][2] == 'q' && keys[6][2] == 't';
    var ms := BindingJson(b).members;
    forall i | 0 <= i < 7 ensures ms[i].key == keys[i] {
    }
  }

  ghost predicate HasMember(v: Json, key: string, value: Json) {
    v.Object? && exists i :: 0 <= i < |v.members| && v.members[i] == CanonicalJson.Member(key, value)
  }

  ghost predicate ListsStrings(v: Json, s: seq<string>) {
    v.Array? && |v.items| == |s| && forall i :: 0 <= i < |s| ==> v.items[i] == String(s[i])
  }

  /** The record of a binding: its seven fields, under their published names and values. */
  lemma BindingIsPublished(b: Binding)
    ensures var v := BindingJson(b);
      && v.Object? && |v.members| == 7
      && HasMember(v, "id", String(b.id))
      && (exists ids :: HasMember(v, "capabilityIds", ids) && ListsStrings(ids, b.capabilityIds))
      && HasMember(v, "safety", String(match b.safety case Read => "read" case Write => "write" case Destructive => "destructive"))
      && HasMember(v, "idempotent", if b.idempotent.None? then Null else Bool(b.idempotent.value))
      && HasMember(v, "requiresActor", Bool(b.requiresActor)) && HasMember(v, "requiresConfirmation", Bool(b.requiresConfirmation))
      && HasMember(v, "retryClass", String(match b.retryClass
           case SafeRead => "safe-read" case KeyIdempotent => "key-idempotent" case NaturalIdempotent => "natural-idempotent"
           case ExternalProviderReconciled => "external-provider-reconciled" case UnsafeReadBack => "unsafe-read-back"))
  {
    var v := BindingJson(b);
    MemberAt(v, 0, "id", String(b.id));
    MemberAt(v, 1, "capabilityIds", Array(Map(StringJson, b.capabilityIds)));
    MemberAt(v, 2, "safety", String(SafetyName(b.safety)));
    MemberAt(v, 3, "idempotent", IdempotentJson(b.idempotent));
    MemberAt(v, 4, "requiresActor", Bool(b.requiresActor));
    MemberAt(v, 5, "requiresConfirmation", Bool(b.requiresConfirmation));
    MemberAt(v, 6, "retryClass", String(RetryName(b.retryClass)));
    assert ListsStrings(Array(Map(StringJson, b.capabilityIds)), b.capabilityIds);
  }

  lemma MemberAt(v: Json, i: nat, key: string, value: Json)
    requires v.Object? && i < |v.members| && v.members[i] == CanonicalJson.Member(key, value)
    ensures HasMember(v, key, value)
  {
  }

  /** The record that is hashed: catalogue, baselines, bindings and workflows, and nothing else. */
  lemma ReportIsPublished(c: Catalogue, bindings: seq<Binding>, workflowIds: seq<string>)
    ensures c.Hash(bindings, workflowIds) == c.sha256(Text(c.ReportJson(bindings, workflowIds)))
    ensures var v := c.ReportJson(bindings, workflowIds);
      && v.Object? && |v.members| == 4
      && HasMember(v, "catalogueHash", String(c.catalogueHash)) && HasMember(v, "baselines", c.baselines)
      && HasMember(v, "bindings", Array(Map(BindingJson, bindings)))
      && exists ids :: HasMember(v, "workflows", ids) && ListsStrings(ids, workflowIds)
  {
    var v := c.ReportJson(bindings, workflowIds);
    MemberAt(v, 0, "catalogueHash", String(c.catalogueHash));
    MemberAt(v, 1, "baselines", c.baselines);
    MemberAt(v, 2, "bindings", Array(Map(BindingJson, bindings)));
    MemberAt(v, 3, "workflows", Array(Map(StringJson, workflowIds)));
    assert ListsStrings(Array(Map(StringJson, workflowIds)), workflowIds);
  }

  lemma BindingIsIdentified(b: Binding)
    ensures IsIdentified(BindingJson(b))
  {
    BindingKeysDiffer(b);
    StringsAreIdentified(b.capabilityIds);
  }

  lemma NamesTellApart()
    ensures forall s: Safety, t: Safety :: SafetyName(s) == SafetyName(t) ==> s == t
    ensures forall r: RetryClass, q: RetryClass :: RetryName(r) == RetryName(q) ==> r == q
  {
    forall s: Safety, t: Safety | SafetyName(s) == SafetyName(t) ensures s == t {
      assert |SafetyName(s)| == |SafetyName(t)|;
    }
    forall r: RetryClass, q: RetryClass | RetryName(r) == RetryName(q) ensures r == q {
      assert |RetryName(r)| == |RetryName(q)|;
    }
  }

  lemma BindingTextsAreDetermined(b: Binding, d: Binding)
    requires EqualUpToKeyOrder(BindingJson(b), BindingJson(d))
    ensures b.id == d.id && b.capabilityIds == d.capabilityIds && b.safety == d.safety
  {
    var ms, ns := BindingJson(b).members, BindingJson(d).members;
    SameMember(ms, ns, 0);
    SameMember(ms, ns, 1);
    SameMember(ms, ns, 2);
    StringsIdentify(b.capabilityIds, d.capabilityIds);
    NamesTellApart();
  }

  lemma BindingIsDetermined(b: Binding, d: Binding)
    requires EqualUpToKeyOrder(BindingJson(b), BindingJson(d))
    ensures b == d
  {
    var ms, ns := BindingJson(b).members, BindingJson(d).members;
    BindingTextsAreDetermined(b, d);
    SameMember(ms, ns, 3);
    SameMember(ms, ns, 4);
    SameMember(ms, ns, 5);
    SameMember(ms, ns, 6);
    NamesTellApart();
  }

  lemma BindingsAreIdentified(s: seq<Binding>)
    ensures IsIdentified(Array(Map(BindingJson, s)))
  {
    forall i | 0 <= i < |s| ensures IsIdentified(Map(BindingJson, s)[i]) {
      BindingIsIdentified(s[i]);
    }
  }

  lemma BindingsAreDetermined(s: seq<Binding>, t: seq<Binding>)
    requires EqualUpToKeyOrder(Array(Map(BindingJson, s)), Array(Map(BindingJson, t)))
    ensures s == t
  {
    forall i | 0 <= i < |s| ensures s[i] == t[i] {
      assert EqualUpToKeyOrder(Map(BindingJson, s)[i], Map(BindingJson, t)[i]);
      BindingIsDetermined(s[i], t[i]);
    }
  }

  // --- The report ---

  lemma ReportKeysDiffer(c: Catalogue, bindings: seq<Binding>, workflowIds: seq<string>)
    ensures DistinctKeys(c.ReportJson(bindings, workflowIds).members)
  {
    var keys := ["catalogueHash", "baselines", "bindings", "workflows"];
    assert keys[1][1] == 'a' && keys[2][1] == 'i' && keys[3][0] == 'w';
    var ms := c.ReportJson(bindings, workflowIds).members;
    forall i | 0 <= i < 4 ensures ms[i].key == keys[i] {
    }
  }

  lemma ReportIsIdentified(c: Catalogue, bindings: seq<Binding>, workflowIds: seq<string>)
    requires IsIdentified(c.baselines)
    ensures IsIdentified(c.ReportJson(bindings, workflowIds))
  {
    ReportKeysDiffer(c, bindings, workflowIds);
    BindingsAreIdentified(bindings);
    StringsAreIdentified(workflowIds);
  }

  lemma ReportIsDetermined(c: Catalogue, d: Catalogue, bs: seq<Binding>, ds: seq<Binding>, ws: seq<string>, vs: seq<string>)
    requires EqualUpToKeyOrder(c.ReportJson(bs, ws), d.ReportJson(ds, vs))
    ensures c.catalogueHash == d.catalogueHash && EqualUpToKeyOrder(c.baselines, d.baselines) && bs == ds && ws == vs
  {
    var ms, ns := c.ReportJson(bs, ws).members, d.ReportJson(ds, vs).members;
    SameMember(ms, ns, 0);
    SameMember(ms, ns, 1);
    SameMember(ms, ns, 2);
    SameMember(ms, ns, 3);
    BindingsAreDetermined(bs, ds);
    StringsIdentify(ws, vs);
  }

  /** Only the text of a member's value matters. */
  lemma ObjectsPrintAlike(ms: seq<CanonicalJson.Member>, ns: seq<CanonicalJson.Member>, k: nat)
    requires |ms| == |ns| && k < |ms| && forall i :: 0 <= i < |ms| && i != k ==> ms[i] == ns[i]
    requires ms[k].key == ns[k].key && Text(ms[k].value) == Text(ns[k].value)
    ensures Text(Object(ms)) == Text(Object(ns))
  {
    assert Entries(ms) == Entries(ns);
    assert SortedEntries(ms) == SortedEntries(ns);
  }

  lemma ReportsPrintAlike(c: Catalogue, d: Catalogue, bindings: seq<Binding>, workflowIds: seq<string>)
    requires c.catalogueHash == d.catalogueHash && Text(c.baselines) == Text(d.baselines)
    ensures Text(c.ReportJson(bindings, workflowIds)) == Text(d.ReportJson(bindings, workflowIds))
  {
    ObjectsPrintAlike(c.ReportJson(bindings, workflowIds).members, d.ReportJson(bindings, workflowIds).members, 1);
  }

  /** Two reports under the same hash function have the same coverage hash exactly when they agree
      on the catalogue, on the baselines up to key order, on every binding and on the workflows. */
  lemma HashIdentifies(c: Catalogue, d: Catalogue, bs: seq<Binding>, ds: seq<Binding>, ws: seq<string>, vs: seq<string>)
    requires c.sha256 == d.sha256 && HasNoCollisions(c.sha256)
    requires IsIdentified(c.baselines) && IsIdentified(d.baselines)
    ensures c.Hash(bs, ws) == d.Hash(ds, vs) <==>
      c.catalogueHash == d.catalogueHash && EqualUpToKeyOrder(c.baselines, d.baselines) && bs == ds && ws == vs
  {
    var v, w := c.ReportJson(bs, ws), d.ReportJson(ds, vs);
    if c.Hash(bs, ws) == d.Hash(ds, vs) {
      ReportIsIdentified(c, bs, ws);
      ReportIsIdentified(d, ds, vs);
      TextDeterminesValue(v, w);
      ReportIsDetermined(c, d, bs, ds, ws, vs);
    }
    if c.catalogueHash == d.catalogueHash && EqualUpToKeyOrder(c.baselines, d.baselines) && bs == ds && ws == vs {
      EqualValuesPrintAlike(c.baselines, d.baselines);
      ReportsPrintAlike(c, d, bs, ws);
    }
  }

  /** With the program's own hash: two reports under one catalogue carry the same coverage hash
      exactly when they have the same bindings and are about the same workflows. */
  lemma ReportHashIdentifies(c: Input, d: Input, collation: (string, string) -> bool, catalogue: Catalogue, r: Report, q: Report)
    requires IsReport(c, PlatformFor(collation, catalogue), r) && IsReport(d, PlatformFor(collation, catalogue), q)
    requires HasNoCollisions(catalogue.sha256) && IsIdentified(catalogue.baselines)
    ensures r.coverageHash == q.coverageHash <==>
      r.bindings == q.bindings && Map(WorkflowId, c.workflows) == Map(WorkflowId, d.workflows)
  {
    HashIdentifies(catalogue, catalogue, r.bindings, q.bindings, Map(WorkflowId, c.workflows), Map(WorkflowId, d.workflows));
    EqualToItself(catalogue.baselines);
  }

  lemma {:induction false} EqualToItself(v: Json)
    requires Valid(v)
    ensures EqualUpToKeyOrder(v, v)
    decreases v
  {
    match v
    case Array(items) =>
      forall i | 0 <= i < |items| ensures EqualUpToKeyOrder(items[i], items[i]) { EqualToItself(items[i]); }
    case Object(ms) =>
      forall i, j | 0 <= i < |ms| && 0 <= j < |ms| && ms[i].key == ms[j].key ensures EqualUpToKeyOrder(ms[i].value, ms[j].value) {
        EqualToItself(ms[i].value);
      }
    case _ =>
  }
}
