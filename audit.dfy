/**
 * The record-maintenance routes of server.ts (create, update and delete of
 * any entity) and the audit entry each writes to `auditoria_abm` once the
 * entity write succeeds, including how the update route cleans its path id
 * with `parseInt`.
 */
module Audit {
  import opened JsValues

  // ---------------------------------------------------------------------
  // parseInt(s) with no radix argument, on integers: leading white space, an
  // optional sign, an optional 0x/0X prefix selecting base 16, then the
  // longest run of digits of that base; no digit at all gives NaN (None).
  // ---------------------------------------------------------------------

  /** The white space and line terminators parseInt skips. */
  predicate IsSpace(c: char)
  {
    c == ' ' || c == '\t' || c == '\n' || c == '\r' || c == '\U{000B}' || c == '\U{000C}'
    || c == '\U{00A0}' || c == '\U{1680}' || ('\U{2000}' <= c <= '\U{200A}')
    || c == '\U{2028}' || c == '\U{2029}' || c == '\U{202F}' || c == '\U{205F}'
    || c == '\U{3000}' || c == '\U{FEFF}'
  }

  /** The value of an alphanumeric digit, 36 for any other character. */
  function DigitVal(c: char): nat
  {
    if '0' <= c <= '9' then c as nat - '0' as nat
    else if 'a' <= c <= 'z' then c as nat - 'a' as nat + 10
    else if 'A' <= c <= 'Z' then c as nat - 'A' as nat + 10
    else 36
  }

  function SkipSpace(s: string): (t: string)
    ensures |t| <= |s| && t == s[|s| - |t|..]
    ensures t == [] || !IsSpace(t[0])
  {
    if s != [] && IsSpace(s[0]) then SkipSpace(s[1..]) else s
  }

  /** The longest prefix of `s` made of digits of base `radix`. */
  function DigitRun(s: string, radix: nat): (run: string)
    ensures run <= s
    ensures forall i :: 0 <= i < |run| ==> DigitVal(run[i]) < radix
    ensures |run| == |s| || DigitVal(s[|run|]) >= radix
  {
    if s != [] && DigitVal(s[0]) < radix then [s[0]] + DigitRun(s[1..], radix) else []
  }

  /** The number a run of digits denotes in base `radix`. */
  function RunValue(ds: string, radix: nat): nat
  {
    if ds == [] then 0 else RunValue(ds[..|ds| - 1], radix) * radix + DigitVal(ds[|ds| - 1])
  }

  predicate HexPrefix(u: string)
  {
    |u| >= 2 && u[0] == '0' && (u[1] == 'x' || u[1] == 'X')
  }

  predicate Negative(t: string)
  {
    t != [] && t[0] == '-'
  }

  function AfterSign(t: string): string
  {
    if t != [] && (t[0] == '-' || t[0] == '+') then t[1..] else t
  }

  function Radix(u: string): nat
  {
    if HexPrefix(u) then 16 else 10
  }

  function AfterPrefix(u: string): string
  {
    if HexPrefix(u) then u[2..] else u
  }

  function Signed(negative: bool, run: string, radix: nat): Option<int>
  {
    var magnitude: int := RunValue(run, radix);
    if run == [] then None
    else Some(if negative then -magnitude else magnitude)
  }

  /** The digits after the sign, in the base their prefix selects. */
  function ParseDigits(negative: bool, u: string): Option<int>
  {
    Signed(negative, DigitRun(AfterPrefix(u), Radix(u)), Radix(u))
  }

  /** `parseInt(s)`; None stands for NaN. */
  function ParseInt(s: string): Option<int>
  {
    var t := SkipSpace(s);
    ParseDigits(Negative(t), AfterSign(t))
  }

  /** `s.split(':')[0]`: everything before the first colon. */
  function BeforeColon(s: string): (p: string)
    ensures p <= s && ':' !in p
    ensures |p| == |s| || s[|p|] == ':'
  {
    if s == [] || s[0] == ':' then [] else [s[0]] + BeforeColon(s[1..])
  }

  /** The update route's `cleanId` (server.ts:115). */
  function CleanId(id: string): Option<int>
  {
    ParseInt(BeforeColon(id))
  }

  // ---------------------------------------------------------------------
  // The routes. The database reply to the entity write is a parameter; the
  // audit insert's own reply is not awaited for errors, so it is not one.
  // ---------------------------------------------------------------------

  datatype Accion = CREATE | UPDATE | DELETE

  /** A row of `auditoria_abm`; a field the route does not set is Undefined. */
  datatype AuditRecord = AuditRecord(
    entidad_tipo: string, entidad_id: Value, accion: Accion,
    valores_nuevos: Option<map<string, Value>>, razon_cambio: Value, usuario: Value)

  /**
   * The write the route sends to the entity's table. The update filter is
   * the parsed id as a number (`None` is NaN, sent as `eq.NaN`); the delete
   * filter is the raw path segment.
   */
  datatype EntityWrite =
    | Insert(table: string, values: map<string, Value>)
    | Update(table: string, values: map<string, Value>, numericFilter: Option<int>)
    | Delete(table: string, textFilter: string)

  datatype DbReply = DbOk(row_id: Value) | DbError(message: string)

  datatype Reply = Created(id: Value) | Updated | Deleted | Failed(message: string)

  /** What a route does: the write it sends, the reply, and the audit entry it inserts. */
  datatype Outcome = Outcome(write: EntityWrite, reply: Reply, audit: Option<AuditRecord>)

  function Status(r: Reply): int
  {
    if r.Failed? then 400 else 200
  }

  /** A missing key reads as undefined. */
  function Get(m: map<string, Value>, key: string): Value
  {
    if key in m then m[key] else Undefined
  }

  /** `const { usuario, ...fields } = body`: the body without `usuario`. */
  function Fields(body: map<string, Value>): (fields: map<string, Value>)
    ensures "usuario" !in fields
    ensures forall k :: k in fields <==> k in body && k != "usuario"
    ensures forall k :: k in fields ==> fields[k] == body[k]
  {
    body - {"usuario"}
  }

  /** `usuario || 'admin'` */
  function Usuario(u: Value): (r: Value)
    ensures Truthy(r)
    ensures Truthy(u) ==> r == u
  {
    if Truthy(u) then u else Str("admin")
  }

  /** How `JSON.stringify` sends a parsed id: NaN becomes null. */
  function JsonId(n: Option<int>): Value
  {
    if n.Some? then Num(n.value) else Null
  }

  /** POST /api/abm/:entity (server.ts:91-108). */
  function CreateRoute(entity: string, body: map<string, Value>, db: DbReply): (o: Outcome)
    ensures o.write.Insert? && o.write.table == entity && o.write.values == Fields(body)
    ensures o.audit.Some? <==> db.DbOk?
    ensures Status(o.reply) == 200 <==> o.audit.Some?
    ensures o.audit.Some? ==>
      o.reply == Created(db.row_id)
      && o.audit.value.accion == CREATE && o.audit.value.entidad_tipo == entity
      && o.audit.value.entidad_id == db.row_id
      && o.audit.value.valores_nuevos == Some(o.write.values)
      && o.audit.value.usuario == Usuario(Get(body, "usuario"))
  {
    var write := Insert(entity, Fields(body));
    match db
    case DbError(msg) => Outcome(write, Failed(msg), None)
    case DbOk(newId) =>
      Outcome(write, Created(newId),
        Some(AuditRecord(entity, newId, CREATE, Some(Fields(body)), Undefined, Usuario(Get(body, "usuario")))))
  }

  /** PUT /api/abm/:entity/:id (server.ts:110-134). */
  function UpdateRoute(entity: string, id: string, body: map<string, Value>, db: DbReply): (o: Outcome)
    ensures o.write.Update? && o.write.table == entity && o.write.values == Fields(body)
    ensures o.write.numericFilter == CleanId(id)
    ensures o.audit.Some? <==> db.DbOk?
    ensures Status(o.reply) == 200 <==> o.audit.Some?
    ensures o.audit.Some? ==>
      o.audit.value.accion == UPDATE && o.audit.value.entidad_tipo == entity
      && o.audit.value.entidad_id == JsonId(o.write.numericFilter)
      && o.audit.value.valores_nuevos == Some(o.write.values)
      && o.audit.value.usuario == Usuario(Get(body, "usuario"))
  {
    var write := Update(entity, Fields(body), CleanId(id));
    match db
    case DbError(msg) => Outcome(write, Failed(msg), None)
    case DbOk(_) =>
      Outcome(write, Updated,
        Some(AuditRecord(entity, JsonId(CleanId(id)), UPDATE, Some(Fields(body)), Undefined,
          Usuario(Get(body, "usuario")))))
  }

  /** DELETE /api/abm/:entity/:id (server.ts:136-153): the filter uses the raw id string. */
  function DeleteRoute(entity: string, id: string, query: map<string, Value>, db: DbReply): (o: Outcome)
    ensures o.write.Delete? && o.write.table == entity && o.write.textFilter == id
    ensures o.audit.Some? <==> db.DbOk?
    ensures Status(o.reply) == 200 <==> o.audit.Some?
    ensures o.audit.Some? ==>
      o.audit.value.accion == DELETE && o.audit.value.entidad_tipo == entity
      && o.audit.value.entidad_id == JsonId(ParseInt(id))
      && o.audit.value.valores_nuevos.None?
      && o.audit.value.razon_cambio == Get(query, "razon")
      && o.audit.value.usuario == Usuario(Get(query, "usuario"))
  {
    var write := Delete(entity, id);
    match db
    case DbError(msg) => Outcome(write, Failed(msg), None)
    case DbOk(_) =>
      Outcome(write, Deleted,
        Some(AuditRecord(entity, JsonId(ParseInt(id)), DELETE, None, Get(query, "razon"),
          Usuario(Get(query, "usuario")))))
  }

  // ---------------------------------------------------------------------
  // Properties.
  // ---------------------------------------------------------------------

  /** Every audit entry names a user: the one given, or 'admin' when it is falsy. */
  lemma AuditUserDefaults(entity: string, id: string, body: map<string, Value>,
                          query: map<string, Value>, db: DbReply)
    requires db.DbOk?
    ensures var c := CreateRoute(entity, body, db).audit.value;
      Truthy(c.usuario) && (!Truthy(Get(body, "usuario")) ==> c.usuario == Str("admin"))
    ensures var u := UpdateRoute(entity, id, body, db).audit.value;
      Truthy(u.usuario) && (!Truthy(Get(body, "usuario")) ==> u.usuario == Str("admin"))
    ensures var d := DeleteRoute(entity, id, query, db).audit.value;
      Truthy(d.usuario) && (!Truthy(Get(query, "usuario")) ==> d.usuario == Str("admin"))
    ensures "usuario" !in CreateRoute(entity, body, db).audit.value.valores_nuevos.value
    ensures "usuario" !in UpdateRoute(entity, id, body, db).audit.value.valores_nuevos.value
  {
  }

  /** The delete route asks for no reason: without one it still deletes and audits an undefined reason. */
  lemma DeleteWithoutReason(entity: string, id: string, db: DbReply)
    requires db.DbOk?
    ensures var o := DeleteRoute(entity, id, map[], db);
      o.reply == Deleted && o.audit.value.razon_cambio == Undefined && o.audit.value.usuario == Str("admin")
  {
  }

  /** `q` is empty or starts with a colon, which parseInt neither skips as space nor reads as sign, prefix or digit. */
  predicate Stop(q: string)
  {
    q == [] || q[0] == ':'
  }

  lemma {:induction false} SkipSpaceStops(p: string, q: string)
    requires Stop(q)
    ensures SkipSpace(p + q) == SkipSpace(p) + q
    decreases |p|
  {
    if p == [] {
      assert p + q == q;
      assert q == [] || !IsSpace(q[0]);
    } else {
      assert (p + q)[0] == p[0];
      if IsSpace(p[0]) {
        assert (p + q)[1..] == p[1..] + q;
        SkipSpaceStops(p[1..], q);
      }
    }
  }

  lemma {:induction false} DigitRunStops(v: string, q: string, radix: nat)
    requires Stop(q) && radix <= 16
    ensures DigitRun(v + q, radix) == DigitRun(v, radix)
    decreases |v|
  {
    if v == [] {
      assert v + q == q;
    } else {
      assert (v + q)[0] == v[0];
      assert (v + q)[1..] == v[1..] + q;
      DigitRunStops(v[1..], q, radix);
    }
  }

  lemma SignStops(t: string, q: string)
    requires Stop(q)
    ensures Negative(t + q) == Negative(t)
    ensures AfterSign(t + q) == AfterSign(t) + q
  {
    if t != [] {
      assert (t + q)[0] == t[0];
      assert (t + q)[1..] == t[1..] + q;
    } else {
      assert t + q == q;
    }
  }

  lemma PrefixStops(u: string, q: string)
    requires Stop(q)
    ensures Radix(u + q) == Radix(u)
    ensures AfterPrefix(u + q) == AfterPrefix(u) + q
  {
    if |u| >= 2 {
      assert (u + q)[0] == u[0] && (u + q)[1] == u[1];
      assert (u + q)[2..] == u[2..] + q;
    } else if |u| == 1 && q != [] {
      assert (u + q)[1] == q[0];
    } else if u == [] {
      assert u + q == q;
    }
  }

  lemma ParseDigitsStops(negative: bool, u: string, q: string)
    requires Stop(q)
    ensures ParseDigits(negative, u + q) == ParseDigits(negative, u)
  {
    PrefixStops(u, q);
    DigitRunStops(AfterPrefix(u), q, Radix(u));
  }

  /** What follows a colon never changes what parseInt returns. */
  lemma ParseIntStops(p: string, q: string)
    requires Stop(q)
    ensures ParseInt(p + q) == ParseInt(p)
  {
    SkipSpaceStops(p, q);
    var t := SkipSpace(p);
    SignStops(t, q);
    ParseDigitsStops(Negative(t), AfterSign(t), q);
  }

  /**
   * Cutting the path id at its first colon does not change what parseInt
   * reads, so the update route's cleanId and the delete route's
   * `parseInt(id)` always agree.
   */
  lemma CleanIdIsParseInt(id: string)
    ensures CleanId(id) == ParseInt(id)
  {
    var p := BeforeColon(id);
    var q := id[|p|..];
    assert id == p + q;
    ParseIntStops(p, q);
  }

  /** For the same path id, the update and the delete audit the same entity id. */
  lemma UpdateAndDeleteAuditSameId(entity: string, id: string, body: map<string, Value>,
                                   query: map<string, Value>, db: DbReply)
    requires db.DbOk?
    ensures UpdateRoute(entity, id, body, db).audit.value.entidad_id
         == DeleteRoute(entity, id, query, db).audit.value.entidad_id
  {
    CleanIdIsParseInt(id);
  }

  lemma {:induction false} DigitRunWhole(s: string, radix: nat)
    requires forall i :: 0 <= i < |s| ==> DigitVal(s[i]) < radix
    ensures DigitRun(s, radix) == s
    decreases |s|
  {
    if s != [] {
      DigitRunWhole(s[1..], radix);
    }
  }

  lemma {:induction false} DigitsValue(n: nat)
    ensures RunValue(Digits(n), 10) == n
    ensures forall i :: 0 <= i < |Digits(n)| ==> DigitVal(Digits(n)[i]) < 10
  {
    if n >= 10 {
      DigitsValue(n / 10);
      var ds := Digits(n);
      assert ds[..|ds| - 1] == Digits(n / 10);
    }
  }

  lemma DigitsParse(negative: bool, m: nat)
    ensures ParseDigits(negative, Digits(m)) == Some(if negative then -(m as int) else m as int)
  {
    var ds := Digits(m);
    DigitsValue(m);
    DigitRunWhole(ds, 10);
    DecimalHasNoPrefix(m);
    assert ParseDigits(negative, ds) == Signed(negative, ds, 10);
  }

  lemma DecimalHasNoPrefix(m: nat)
    ensures AfterPrefix(Digits(m)) == Digits(m) && Radix(Digits(m)) == 10
  {
    var ds := Digits(m);
    assert !HexPrefix(ds) by {
      if |ds| >= 2 {
        assert '0' <= ds[1] <= '9';
      }
    }
  }

  lemma SkipNoSpace(s: string)
    requires s != [] && (s[0] == '-' || '0' <= s[0] <= '9')
    ensures SkipSpace(s) == s
  {
  }

  /** parseInt reads back the decimal form of any integer. */
  lemma ParseDecimal(n: int)
    ensures ParseInt(DecimalString(n)) == Some(n)
  {
    var m := if n < 0 then -n else n;
    var s := DecimalString(n);
    SkipNoSpace(s);
    assert AfterSign(s) == Digits(m);
    assert Negative(s) <==> n < 0;
    DigitsParse(n < 0, m);
  }

  /** The update route recovers the numeric id from a path id such as "12:3". */
  lemma CleanIdOfDecimal(n: int, rest: string)
    ensures CleanId(DecimalString(n) + ":" + rest) == Some(n)
  {
    var s := DecimalString(n);
    var q := ":" + rest;
    assert s + ":" + rest == s + q;
    CleanIdIsParseInt(s + q);
    ParseIntStops(s, q);
    ParseDecimal(n);
  }
  /**
   * For an id "<n>:<suffix>", the update writes to row n, while the delete
   * filters by the whole string, colon and suffix included.
   */
  lemma SuffixedIdFilters(entity: string, n: int, rest: string, body: map<string, Value>,
                          query: map<string, Value>, db: DbReply)
    ensures var id := DecimalString(n) + ":" + rest;
      UpdateRoute(entity, id, body, db).write.numericFilter == Some(n)
      && DeleteRoute(entity, id, query, db).write.textFilter == id
  {
    CleanIdOfDecimal(n, rest);
  }

}
