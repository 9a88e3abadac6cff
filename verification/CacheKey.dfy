/** The text key of the response cache: lower-cased name and eight rendered properties, joined by ':'. */
module CacheKey {
  import opened Text

  datatype Edns = Edns(size: nat, version: nat, dnssecOk: bool, options: nat)

  /** The parts of a query the key is made from; questions counts its question entries. */
  datatype Query = Query(id: nat, questions: nat, name: string, qtype: nat, qclass: nat,
                         rd: bool, cd: bool, ad: bool, edns: Option<Edns>)

  /** The nine properties a key stands for; no OPT record reads as zeros. */
  datatype Identity = Identity(name: string, qtype: nat, qclass: nat, rd: bool, cd: bool, ad: bool,
                               size: nat, version: nat, dnssecOk: bool)

  function IdentityOf(q: Query): Identity {
    match q.edns
    case None => Identity(Lower(q.name), q.qtype, q.qclass, q.rd, q.cd, q.ad, 0, 0, false)
    case Some(o) => Identity(Lower(q.name), q.qtype, q.qclass, q.rd, q.cd, q.ad, o.size, o.version, o.dnssecOk)
  }

  function Bool(b: bool): string {
    if b then "true" else "false"
  }

  function Fields(k: Identity): seq<string> {
    [Decimal(k.qtype), Decimal(k.qclass), Bool(k.rd), Bool(k.cd), Bool(k.ad),
     Decimal(k.size), Decimal(k.version), Bool(k.dnssecOk)]
  }

  /** name, then ":" and a field, eight times */
  function Render(name: string, fields: seq<string>): string {
    if fields == [] then name
    else Render(name, fields[..|fields| - 1]) + ":" + fields[|fields| - 1]
  }

  predicate Cacheable(q: Query) {
    q.questions == 1 && (q.edns.Some? ==> q.edns.value.options == 0)
  }

  /** cacheKeyForMessage */
  function CacheKeyForMessage(q: Query): Option<string> {
    if Cacheable(q) then Some(Render(IdentityOf(q).name, Fields(IdentityOf(q)))) else None
  }

  lemma LastColon(a: string, f: string)
    requires ':' !in f
    ensures var s := a + ":" + f; s[|a|] == ':' && forall k :: |a| < k < |s| ==> s[k] != ':'
  {
    var s := a + ":" + f;
    assert s[|a| + 1..] == f;
    forall k | |a| < k < |s| ensures s[k] != ':' {
      assert s[k] == f[k - |a| - 1];
    }
  }

  lemma LastFieldSplits(a: string, f: string, b: string, g: string)
    requires ':' !in f && ':' !in g
    requires a + ":" + f == b + ":" + g
    ensures a == b && f == g
  {
    var s, t := a + ":" + f, b + ":" + g;
    LastColon(a, f);
    LastColon(b, g);
    assert s[..|a|] == a && t[..|b|] == b;
    assert s[|a| + 1..] == f && t[|b| + 1..] == g;
  }

  /** The fields hold no ':', so they can be read back from the right whatever the name holds. */
  lemma {:induction false} RenderInjective(m: string, fs: seq<string>, n: string, gs: seq<string>)
    requires |fs| == |gs|
    requires forall f :: f in fs ==> ':' !in f
    requires forall g :: g in gs ==> ':' !in g
    requires Render(m, fs) == Render(n, gs)
    ensures m == n && fs == gs
  {
    if fs != [] {
      var fi, gi := fs[..|fs| - 1], gs[..|gs| - 1];
      LastFieldSplits(Render(m, fi), fs[|fs| - 1], Render(n, gi), gs[|gs| - 1]);
      RenderInjective(m, fi, n, gi);
      assert fs == fi + [fs[|fs| - 1]] && gs == gi + [gs[|gs| - 1]];
    }
  }

  lemma FieldsAreBare(k: Identity)
    ensures forall f :: f in Fields(k) ==> ':' !in f
  {
    assert forall n: nat :: ':' !in Decimal(n);
  }

  lemma FieldsInjective(a: Identity, b: Identity)
    requires a.name == b.name && Fields(a) == Fields(b)
    ensures a == b
  {
    hide Decimal;
    var f, g := Fields(a), Fields(b);
    assert f[0] == g[0] && f[1] == g[1] && f[2] == g[2] && f[3] == g[3];
    assert f[4] == g[4] && f[5] == g[5] && f[6] == g[6] && f[7] == g[7];
    DecimalInjective(a.qtype, b.qtype);
    DecimalInjective(a.qclass, b.qclass);
    DecimalInjective(a.size, b.size);
    DecimalInjective(a.version, b.version);
  }

  /** A query gets a key exactly when it asks one question and carries no EDNS option, and two queries share one
      exactly when they agree on name (ignoring case), type, class, the RD, CD and AD bits, and the size, version
      and DO bit of their OPT records, where no OPT record reads as 0, 0 and no DO. */
  lemma KeyIsIdentity(p: Query, q: Query)
    ensures CacheKeyForMessage(q).Some? <==> q.questions == 1 && (q.edns.Some? ==> q.edns.value.options == 0)
    ensures CacheKeyForMessage(p).Some? && CacheKeyForMessage(q).Some? ==>
      (CacheKeyForMessage(p) == CacheKeyForMessage(q) <==>
        && Lower(p.name) == Lower(q.name) && p.qtype == q.qtype && p.qclass == q.qclass
        && p.rd == q.rd && p.cd == q.cd && p.ad == q.ad
        && (if p.edns.Some? then p.edns.value.size else 0) == (if q.edns.Some? then q.edns.value.size else 0)
        && (if p.edns.Some? then p.edns.value.version else 0) == (if q.edns.Some? then q.edns.value.version else 0)
        && (p.edns.Some? && p.edns.value.dnssecOk <==> q.edns.Some? && q.edns.value.dnssecOk))
  {
    hide Fields, Render;
    if CacheKeyForMessage(p).Some? && CacheKeyForMessage(p) == CacheKeyForMessage(q) {
      var a, b := IdentityOf(p), IdentityOf(q);
      FieldsAreBare(a);
      FieldsAreBare(b);
      assert |Fields(a)| == 8 == |Fields(b)| by { EightFields(a); EightFields(b); }
      RenderInjective(a.name, Fields(a), b.name, Fields(b));
      FieldsInjective(a, b);
    }
  }

  lemma EightFields(k: Identity)
    ensures |Fields(k)| == 8
  {
  }
}
