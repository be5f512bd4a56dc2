/** Secrets in payloads: where they are looked for, and what is shown instead of them. */
module Secrets {
  import opened Prelude
  import opened Text
  import opened Json
  import opened Params
  import opened Ledger

  /** The keys whose values are secrets. */
  predicate IsSecretName(key: string) {
    key == "password" || key == "secret" || key == "token" || key == "credential_ref"
  }

  // ---- Secrets sent ----

  /** The value a path of keys leads to through nested objects. */
  function At(v: Json, path: seq<string>): Option<Json> {
    if path == [] then Some(v)
    else if v.Obj? && path[0] in v.fields then At(v.fields[path[0]], path[1..])
    else None
  }

  /** The path ends at a secret given as text that is not blank. */
  predicate PlainSecretAt(v: Json, path: seq<string>) {
    path != [] && IsSecretName(path[|path| - 1]) && At(v, path).Some? && At(v, path).value.Str?
    && !IsBlank(At(v, path).value.s)
  }

  lemma {:induction false} SecretsHavePaths(v: Json)
    ensures HoldsPlainSecret(v) <==> exists path :: PlainSecretAt(v, path)
  {
    if v.Obj? {
      forall k | k in v.fields
        ensures HoldsPlainSecret(v.fields[k]) <==> exists path :: PlainSecretAt(v.fields[k], path)
      {
        SecretsHavePaths(v.fields[k]);
      }
      if HoldsPlainSecret(v) {
        PathToSecret(v);
      }
      if path :| PlainSecretAt(v, path) {
        SecretOnPath(v, path);
      }
    } else {
      assert forall path | path != [] :: At(v, path).None?;
    }
  }

  lemma {:induction false} PathToSecret(v: Json)
    requires v.Obj? && HoldsPlainSecret(v)
    requires forall k | k in v.fields ::
               HoldsPlainSecret(v.fields[k]) ==> exists path :: PlainSecretAt(v.fields[k], path)
    ensures exists path :: PlainSecretAt(v, path)
  {
    var k :| k in v.fields
      && ((k in SECRET_KEYS && v.fields[k].Str? && Strip(v.fields[k].s) != []) || HoldsPlainSecret(v.fields[k]));
    if k in SECRET_KEYS && v.fields[k].Str? && Strip(v.fields[k].s) != [] {
      BlankStripsToNothing(v.fields[k].s);
      assert At(v, [k]) == At(v.fields[k], []);
      assert PlainSecretAt(v, [k]);
    } else {
      var path :| PlainSecretAt(v.fields[k], path);
      var longer := [k] + path;
      assert longer[1..] == path && longer[|longer| - 1] == path[|path| - 1];
      assert PlainSecretAt(v, longer);
    }
  }

  lemma {:induction false} SecretOnPath(v: Json, path: seq<string>)
    requires v.Obj? && PlainSecretAt(v, path)
    requires forall k | k in v.fields ::
               (exists rest :: PlainSecretAt(v.fields[k], rest)) ==> HoldsPlainSecret(v.fields[k])
    ensures HoldsPlainSecret(v)
  {
    var k := path[0];
    if |path| == 1 {
      assert At(v, path) == At(v.fields[k], []) by {
        assert path[1..] == [];
      }
      BlankStripsToNothing(v.fields[k].s);
    } else {
      assert path[1..][|path| - 2] == path[|path| - 1];
      assert PlainSecretAt(v.fields[k], path[1..]);
    }
  }

  // ---- Secrets shown ----

  /**
    * `r` shows `v`: the same keys at every depth of nested objects, a mask under each secret's key, and everything
    * else, lists included, as it is.
    */
  predicate Shows(r: Json, v: Json) {
    match v
    case Obj(fields) =>
      && r.Obj? && r.fields.Keys == fields.Keys
      && forall k | k in fields ::
           if IsSecretName(k) then r.fields[k] == Str("[redacted]") else Shows(r.fields[k], fields[k])
    case _ => r == v
  }

  lemma {:induction false} RedactShows(v: Json)
    ensures Shows(Redact(v), v)
  {
    if v.Obj? {
      forall k | k in v.fields && !IsSecretName(k) ensures Shows(Redact(v.fields[k]), v.fields[k]) {
        RedactShows(v.fields[k]);
      }
    }
  }

  /** What is shown of a payload is determined by it. */
  lemma {:induction false} ShownIsUnique(r: Json, q: Json, v: Json)
    requires Shows(r, v) && Shows(q, v)
    ensures r == q
    decreases v
  {
    if v.Obj? {
      forall k | k in v.fields ensures r.fields[k] == q.fields[k] {
        if !IsSecretName(k) {
          ShownIsUnique(r.fields[k], q.fields[k], v.fields[k]);
        }
      }
      assert r.fields == q.fields;
    }
  }

  /** No value under a secret's key is shown, at any depth of nested objects. */
  lemma {:induction false} ShownIsMasked(r: Json, v: Json, path: seq<string>)
    requires Shows(r, v) && path != [] && IsSecretName(path[|path| - 1]) && At(r, path).Some?
    ensures At(r, path) == Some(Str("[redacted]"))
    decreases path
  {
    var k := path[0];
    if |path| == 1 {
      assert path[1..] == [];
      assert At(r, path) == At(r.fields[k], []);
    } else if !IsSecretName(k) {
      assert path[1..][|path| - 2] == path[|path| - 1];
      ShownIsMasked(r.fields[k], v.fields[k], path[1..]);
    }
  }

  /** A payload as the cards and details show it. */
  predicate ShowsPayload(shown: Payload, payload: Payload) {
    Shows(Obj(shown), Obj(payload))
  }

  lemma {:induction false} RedactedPayloadShows(payload: Payload)
    ensures ShowsPayload(RedactPayload(payload), payload)
  {
    RedactShows(Obj(payload));
    assert Obj(RedactPayload(payload)) == Redact(Obj(payload));
  }
}
