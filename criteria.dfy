/** The criteria engine: turns a caller's filter, given either as a
    pseudo-SQL expression with '?' placeholders or as a tagged struct, into
    a document-store filter map.

    The struct's reflection is replaced by an explicit list of field
    descriptors: the Go field name, its `criteria` tag, its value and
    whether that value is the zero value of its type. */
module Criteria {
  import opened Values
  import opened Text
  import opened Clauses
  import opened SnakeCase

  /** One field of a struct query, as reflection sees it. */
  datatype Field = Field(name: string, tag: string, value: Value, isZero: bool)

  /** What `Criteria` may be given: nil, a string, or a struct value. (Any
      other value, or the address of a struct, makes the entity builder panic,
      so it is not representable.) */
  datatype Query = QNil | QString(s: string) | QStruct(fields: seq<Field>)

  /** `CriteriaBuilder`: the query, the expression (when the query is a
      string), the arguments and the build error. */
  datatype CriteriaBuilder = CriteriaBuilder(query: Query, sql: string, vars: seq<Value>, error: Option<GoError>)

  const ArgCountError: GoError := GoError("the number of args is not equal to given query")

  /** Every filter starts from this: soft-deleted records are excluded. */
  const Base: Filter := map["deleted_at" := Null]

  /** `Criteria`: a string query records an error exactly when its number of
      '?' differs from the number of arguments. */
  function Criteria(query: Query, args: seq<Value>): (c: CriteriaBuilder)
    ensures c.query == query && c.vars == args
    ensures c.error.Some? <==> query.QString? && CountChar(query.s, '?') != |args|
    ensures c.error.Some? ==> c.error == Some(ArgCountError)
    ensures c.sql != [] ==> query == QString(c.sql)
  {
    match query
    case QString(s) =>
      CriteriaBuilder(query, s, args, if CountChar(s, '?') != |args| then Some(ArgCountError) else None)
    case _ => CriteriaBuilder(query, "", args, None)
  }

  // ---------------------------------------------------------------------
  // Pseudo-SQL expressions

  /** The operator of a clause applied to its value; `None` for an unknown
      operator, which adds nothing. */
  function Constraint(op: string, v: Value): (r: Option<Value>)
    ensures r.None? <==> op !in {"=", "!=", "like", "in"}
  {
    if op == "=" then Some(v)
    else if op == "!=" then Some(Doc(map["$ne" := v]))
    else if op == "like" then Some(Doc(map["$regex" := v]))
    else if op == "in" then Some(Doc(map["$in" := v]))
    else None
  }

  /** The key of a clause's field: `id` is stored under `_id`, unless the
      whole expression already mentions `_id` somewhere. */
  function Key(sql: string, field: string): (k: string)
    ensures k == "_id" <==> field == "_id" || (field == "id" && !Contains(sql, "_id"))
  {
    if field == "id" && !Contains(sql, "_id") then "_id" else field
  }

  /** The value of a used clause: the next argument for "?", the token
      itself otherwise. */
  function ClauseValue(args: seq<Value>, q: seq<string>, vc: nat): Value
    requires |q| == 3 && (IsPlaceholderClause(q) ==> vc < |args|)
  {
    if q[2] == "?" then args[vc] else Str(q[2])
  }

  /** The clause `q` is used and writes key `k`. */
  predicate Writes(sql: string, q: seq<string>, k: string)
  {
    |q| == 3 && Constraint(q[1], Null).Some? && Key(sql, q[0]) == k
  }

  /** One clause applied to the map of its pass: skipped when it has more
      than three tokens or an unknown operator. */
  function ClauseStep(m: Filter, sql: string, args: seq<Value>, q: seq<string>, vc: nat): Filter
    requires |q| >= 3 && (IsPlaceholderClause(q) ==> vc < |args|)
  {
    if |q| > 3 then m
    else
      match Constraint(q[1], ClauseValue(args, q, vc))
      case None => m
      case Some(c) => m[Key(sql, q[0]) := c]
  }

  /** Enough arguments for the clauses, counting from `vc0`. */
  predicate PassReady(args: seq<Value>, qs: seq<seq<string>>, vc0: nat)
  {
    ClausesInDomain(qs) && vc0 + Takes(qs) <= |args|
  }

  /** The map one pass builds from its clauses, the first argument it may
      take being `args[vc0]`. */
  function PassMap(sql: string, args: seq<Value>, qs: seq<seq<string>>, vc0: nat): Filter
    requires PassReady(args, qs, vc0)
    decreases |qs|
  {
    if qs == [] then map[]
    else
      var init, last := qs[..|qs| - 1], qs[|qs| - 1];
      TakesSnoc(init, last);
      assert init + [last] == qs;
      ClauseStep(PassMap(sql, args, init, vc0), sql, args, last, vc0 + Takes(init))
  }

  /** The expression can be translated with these arguments: every clause
      of a pass that runs has three tokens or more, and the placeholders the
      passes take are there. */
  predicate SqlReady(sql: string, args: seq<Value>)
  {
    SqlInDomain(sql) && PassTakes(sql, AndSep) + PassTakes(sql, OrSep) <= |args|
  }

  /** The filter after the AND pass: its clauses merged over the base map,
      later keys winning (`deleted_at` included). */
  function AndFilter(sql: string, args: seq<Value>): Filter
    requires SqlReady(sql, args)
  {
    if Contains(sql, AndSep) then Base + PassMap(sql, args, PassClauses(sql, AndSep), 0) else Base
  }

  /** The map of the OR pass, whose first placeholder takes the argument
      after the ones the AND pass took. */
  function OrMap(sql: string, args: seq<Value>): Filter
    requires SqlReady(sql, args) && Contains(sql, OrSep)
  {
    PassMap(sql, args, PassClauses(sql, OrSep), PassTakes(sql, AndSep))
  }

  /** The single-key document the OR pass emits for key `k`. */
  function OrDoc(om: Filter, k: string): Value
    requires k in om
  {
    Doc(map[k := om[k]])
  }

  /** `ob` lists one single-key document per key of `om`, each once, in
      some order (Go's map iteration order). */
  predicate IsOrList(ob: seq<Value>, om: Filter)
  {
    && |ob| == |om.Keys|
    && (forall k :: k in om ==> OrDoc(om, k) in ob)
    && (forall i :: 0 <= i < |ob| ==> exists k :: k in om && ob[i] == OrDoc(om, k))
    && (forall i, j :: 0 <= i < j < |ob| ==> ob[i] != ob[j])
  }

  /** `f` is a filter `buildMgoSql` can return for the expression: the AND
      filter, plus an `$or` list when the OR pass runs. */
  predicate IsSqlFilter(sql: string, args: seq<Value>, f: Filter)
    requires SqlReady(sql, args)
  {
    if Contains(sql, OrSep) then
      && "$or" in f && f["$or"].Arr? && IsOrList(f["$or"].items, OrMap(sql, args))
      && f == AndFilter(sql, args)["$or" := f["$or"]]
    else f == AndFilter(sql, args)
  }

  /** The pass map of one more clause is one more clause step. */
  lemma PassMapStep(sql: string, args: seq<Value>, qs: seq<seq<string>>, vc0: nat, i: nat)
    requires PassReady(args, qs, vc0) && i < |qs|
    ensures PassReady(args, qs[..i + 1], vc0)
    ensures Takes(qs[..i + 1]) == Takes(qs[..i]) + (if IsPlaceholderClause(qs[i]) then 1 else 0)
    ensures PassMap(sql, args, qs[..i + 1], vc0)
      == ClauseStep(PassMap(sql, args, qs[..i], vc0), sql, args, qs[i], vc0 + Takes(qs[..i]))
  {
    assert qs[..i + 1] == qs[..i] + [qs[i]];
    assert qs[..i + 1][..i] == qs[..i];
    TakesSnoc(qs[..i], qs[i]);
    TakesPrefix(qs, i + 1);
  }

  /** One pass of `buildMgoSql` over the pieces of one separator. */
  method RunPass(sql: string, args: seq<Value>, pieces: seq<string>, vc0: nat) returns (m: Filter, vc: nat)
    requires PassReady(args, PieceTokens(pieces), vc0)
    ensures m == PassMap(sql, args, PieceTokens(pieces), vc0)
    ensures vc == vc0 + Takes(PieceTokens(pieces))
  {
    ghost var qs := PieceTokens(pieces);
    m, vc := map[], vc0;
    assert qs[..0] == [];
    for i := 0 to |pieces|
      invariant PassAt(sql, args, pieces, vc0, i, m, vc)
    {
      PieceStep(sql, args, pieces, vc0, i, m, vc);
      var m', vc' := ApplyClause(m, sql, args, pieces[i], vc);
      PieceApplied(sql, args, pieces, vc0, i, m, vc, m', vc');
      m, vc := m', vc';
    }
    assert qs[..|pieces|] == qs;
  }

  /** The state of the pass loop before piece `i`: the map and the counter
      of the first `i` pieces. */
  predicate PassAt(sql: string, args: seq<Value>, pieces: seq<string>, vc0: nat, i: nat, m: Filter, vc: nat)
  {
    var qs := PieceTokens(pieces);
    && i <= |pieces|
    && PassReady(args, qs[..i], vc0)
    && vc == vc0 + Takes(qs[..i])
    && m == PassMap(sql, args, qs[..i], vc0)
  }

  /** Before piece `i` the loop body can apply it. */
  lemma PieceStep(sql: string, args: seq<Value>, pieces: seq<string>, vc0: nat, i: nat, m: Filter, vc: nat)
    requires PassReady(args, PieceTokens(pieces), vc0) && i < |pieces|
    requires PassAt(sql, args, pieces, vc0, i, m, vc)
    ensures |Tokens(pieces[i])| >= 3
    ensures IsPlaceholderClause(Tokens(pieces[i])) ==> vc < |args|
  {
    PassMapStep(sql, args, PieceTokens(pieces), vc0, i);
  }

  /** Applying piece `i` moves the loop state to the next piece. */
  lemma PieceApplied(sql: string, args: seq<Value>, pieces: seq<string>, vc0: nat, i: nat,
                     m: Filter, vc: nat, m': Filter, vc': nat)
    requires PassReady(args, PieceTokens(pieces), vc0) && i < |pieces|
    requires PassAt(sql, args, pieces, vc0, i, m, vc)
    requires |Tokens(pieces[i])| >= 3 && (IsPlaceholderClause(Tokens(pieces[i])) ==> vc < |args|)
    requires m' == ClauseStep(m, sql, args, Tokens(pieces[i]), vc)
    requires vc' == vc + (if IsPlaceholderClause(Tokens(pieces[i])) then 1 else 0)
    ensures PassAt(sql, args, pieces, vc0, i + 1, m', vc')
  {
    PassMapStep(sql, args, PieceTokens(pieces), vc0, i);
  }

  /** The body of the pass loop for one piece: a piece of more than three
      tokens is skipped; otherwise its field, operator and value are read
      and the entry written. */
  method ApplyClause(m: Filter, sql: string, args: seq<Value>, piece: string, vc: nat) returns (m': Filter, vc': nat)
    requires |Tokens(piece)| >= 3 && (IsPlaceholderClause(Tokens(piece)) ==> vc < |args|)
    ensures m' == ClauseStep(m, sql, args, Tokens(piece), vc)
    ensures vc' == vc + (if IsPlaceholderClause(Tokens(piece)) then 1 else 0)
  {
    m', vc' := m, vc;
    var q := Split(piece, " ");
    if |q| > 3 {
      return;
    }
    var k := q[0];
    if k == "id" && !Contains(sql, "_id") {
      k := "_id";
    }
    var v: Value;
    if "?" == q[2] {
      v := args[vc];
      vc' := vc + 1;
    } else {
      v := Str(q[2]);
    }
    match q[1]
    case "=" => m' := m[k := v];
    case "!=" => m' := m[k := Doc(map["$ne" := v])];
    case "like" => m' := m[k := Doc(map["$regex" := v])];
    case "in" => m' := m[k := Doc(map["$in" := v])];
    case _ =>
  }

  /** The `$or` list: one single-key document per key of the OR map, in the
      order the map is walked. */
  method OrBranches(om: Filter) returns (ob: seq<Value>)
    ensures IsOrList(ob, om)
  {
    ob := [];
    ghost var keys: seq<string> := [];
    var rest := om.Keys;
    while rest != {}
      invariant rest <= om.Keys
      invariant |ob| + |rest| == |om.Keys|
      invariant |keys| == |ob|
      invariant forall i :: 0 <= i < |ob| ==> keys[i] in om && keys[i] !in rest && ob[i] == OrDoc(om, keys[i])
      invariant forall k :: k in om && k !in rest ==> OrDoc(om, k) in ob
      invariant forall i, j :: 0 <= i < j < |ob| ==> ob[i] != ob[j]
      decreases |rest|
    {
      var k :| k in rest;
      forall i | 0 <= i < |ob| ensures ob[i] != OrDoc(om, k) {
        assert k !in OrDoc(om, keys[i]).fields;
      }
      ob := ob + [OrDoc(om, k)];
      keys := keys + [k];
      rest := rest - {k};
    }
    forall i | 0 <= i < |ob| ensures exists k :: k in om && ob[i] == OrDoc(om, k) {
      assert keys[i] in om && ob[i] == OrDoc(om, keys[i]);
    }
  }

  /** `buildMgoSql`: the AND pass then the OR pass, sharing one argument
      counter. */
  method BuildMgoSql(sql: string, args: seq<Value>) returns (bm: Filter)
    requires SqlReady(sql, args)
    ensures IsSqlFilter(sql, args, bm)
    ensures "deleted_at" in bm
    ensures !Contains(sql, AndSep) && !Contains(sql, OrSep) ==> bm == Base
  {
    bm := Base;
    var vc := 0;
    var syntaxes := [AndSep, OrSep];
    for j := 0 to 2
      invariant j == 0 ==> bm == Base && vc == 0
      invariant j == 1 ==> bm == AndFilter(sql, args) && vc == PassTakes(sql, AndSep)
      invariant j == 2 ==> IsSqlFilter(sql, args, bm)
    {
      var syntax := syntaxes[j];
      if !Contains(sql, syntax) {
        continue;
      }
      var pieces := Split(sql, syntax);
      assert PieceTokens(pieces) == PassClauses(sql, syntax);
      var m;
      m, vc := RunPass(sql, args, pieces, vc);
      if syntax == AndSep {
        bm := bm + m;
      } else if syntax == OrSep {
        var ob := OrBranches(m);
        bm := bm["$or" := Arr(ob)];
      }
    }
  }

  /** Every prefix of ready clauses is ready. */
  lemma PassReadyPrefix(args: seq<Value>, qs: seq<seq<string>>, vc0: nat, i: nat)
    requires PassReady(args, qs, vc0) && i <= |qs|
    ensures PassReady(args, qs[..i], vc0)
  {
    TakesPrefix(qs, i);
  }

  /** What a used clause with a known operator writes. */
  function ClauseEntry(args: seq<Value>, q: seq<string>, vc: nat): Value
    requires |q| == 3 && Constraint(q[1], Null).Some?
    requires IsPlaceholderClause(q) ==> vc < |args|
  {
    Constraint(q[1], ClauseValue(args, q, vc)).value
  }

  /** The keys of a pass's map are exactly the keys its clauses write:
      skipped clauses and unknown operators add nothing. */
  lemma {:induction false} PassMapKeys(sql: string, args: seq<Value>, qs: seq<seq<string>>, vc0: nat)
    requires PassReady(args, qs, vc0)
    ensures forall k :: k in PassMap(sql, args, qs, vc0) <==>
      exists j :: 0 <= j < |qs| && Writes(sql, qs[j], k)
    decreases |qs|
  {
    if qs != [] {
      var n := |qs| - 1;
      var init := qs[..n];
      PassReadyPrefix(args, qs, vc0, n);
      PassMapKeys(sql, args, init, vc0);
      forall k
        ensures k in PassMap(sql, args, qs, vc0) <==>
          exists j :: 0 <= j < |qs| && Writes(sql, qs[j], k)
      {
        if !Writes(sql, qs[n], k) {
          assert (exists j :: 0 <= j < |qs| && Writes(sql, qs[j], k))
            <==> (exists j :: 0 <= j < |init| && Writes(sql, init[j], k)) by {
            forall j | 0 <= j < |init| ensures init[j] == qs[j] { }
          }
        }
      }
    }
  }

  /** The value of a key is the one the last clause writing it gives: later
      clauses override earlier ones. */
  lemma {:induction false} PassMapLastWins(sql: string, args: seq<Value>, qs: seq<seq<string>>, vc0: nat, j: nat, k: string)
    requires PassReady(args, qs, vc0) && j < |qs| && Writes(sql, qs[j], k)
    requires forall l :: j < l < |qs| ==> !Writes(sql, qs[l], k)
    ensures IsPlaceholderClause(qs[j]) ==> vc0 + Takes(qs[..j]) < |args|
    ensures k in PassMap(sql, args, qs, vc0)
    ensures PassMap(sql, args, qs, vc0)[k] == ClauseEntry(args, qs[j], vc0 + Takes(qs[..j]))
    decreases |qs|
  {
    var n := |qs| - 1;
    var init := qs[..n];
    PassMapStep(sql, args, qs, vc0, n);
    assert qs[..n + 1] == qs;
    ClauseStepWrites(PassMap(sql, args, init, vc0), sql, args, qs[n], vc0 + Takes(init), k);
    if j < n {
      PassReadyPrefix(args, qs, vc0, n);
      assert init[..j] == qs[..j] && init[j] == qs[j];
      assert forall l :: j < l < |init| ==> init[l] == qs[l];
      PassMapLastWins(sql, args, init, vc0, j, k);
    }
  }

  /** A clause step writes the clause's entry under the key it writes and
      leaves every other key as it was. */
  lemma ClauseStepWrites(m: Filter, sql: string, args: seq<Value>, q: seq<string>, vc: nat, k: string)
    requires |q| >= 3 && (IsPlaceholderClause(q) ==> vc < |args|)
    ensures Writes(sql, q, k) ==>
      k in ClauseStep(m, sql, args, q, vc) && ClauseStep(m, sql, args, q, vc)[k] == ClauseEntry(args, q, vc)
    ensures !Writes(sql, q, k) ==>
      (k in ClauseStep(m, sql, args, q, vc) <==> k in m) &&
      (k in m ==> ClauseStep(m, sql, args, q, vc)[k] == m[k])
  {
    if |q| == 3 && Constraint(q[1], Null).Some? {
      assert Constraint(q[1], ClauseValue(args, q, vc)).Some?;
    }
  }

  /** The filter `buildMgoSql` returns is the AND filter on every key but
      `$or`, which holds the OR list when the OR pass runs. */
  lemma SqlFilterParts(sql: string, args: seq<Value>, f: Filter)
    requires SqlReady(sql, args) && IsSqlFilter(sql, args, f)
    ensures forall k :: k != "$or" ==> (k in f <==> k in AndFilter(sql, args))
    ensures forall k :: k != "$or" && k in f ==> f[k] == AndFilter(sql, args)[k]
    ensures Contains(sql, OrSep) ==> "$or" in f && f["$or"].Arr? && IsOrList(f["$or"].items, OrMap(sql, args))
    ensures !Contains(sql, OrSep) ==> f == AndFilter(sql, args)
  {
  }

  /** The last AND clause `qs[j]` writing a key decides that key in the AND
      filter, over the base map (so a clause on `deleted_at` replaces the
      null test); a placeholder there takes the argument after those the
      earlier clauses took. */
  lemma AndClauseDecides(sql: string, args: seq<Value>, qs: seq<seq<string>>, j: nat, k: string)
    requires SqlReady(sql, args) && Contains(sql, AndSep) && qs == PassClauses(sql, AndSep)
    requires j < |qs| && Writes(sql, qs[j], k)
    requires forall l :: j < l < |qs| ==> !Writes(sql, qs[l], k)
    ensures IsPlaceholderClause(qs[j]) ==> Takes(qs[..j]) < |args|
    ensures k in AndFilter(sql, args) && AndFilter(sql, args)[k] == ClauseEntry(args, qs[j], Takes(qs[..j]))
  {
    assert PassReady(args, qs, 0);
    var pm := PassMap(sql, args, qs, 0);
    PassMapLastWins(sql, args, qs, 0, j, k);
    assert AndFilter(sql, args) == Base + pm;
    assert k in Base + pm && (Base + pm)[k] == pm[k];
  }

  /** The last OR clause `qs[j]` writing a key decides the single-key
      document of the `$or` list for that key; its placeholder, if any,
      takes the argument after those the AND pass and the earlier OR clauses
      took. */
  lemma OrClauseDecides(sql: string, args: seq<Value>, ob: seq<Value>, qs: seq<seq<string>>, vc0: nat, j: nat, k: string)
    requires SqlReady(sql, args) && Contains(sql, OrSep) && IsOrList(ob, OrMap(sql, args))
    requires qs == PassClauses(sql, OrSep) && vc0 == PassTakes(sql, AndSep)
    requires j < |qs| && Writes(sql, qs[j], k)
    requires forall l :: j < l < |qs| ==> !Writes(sql, qs[l], k)
    ensures IsPlaceholderClause(qs[j]) ==> vc0 + Takes(qs[..j]) < |args|
    ensures Doc(map[k := ClauseEntry(args, qs[j], vc0 + Takes(qs[..j]))]) in ob
  {
    assert PassReady(args, qs, vc0);
    PassMapLastWins(sql, args, qs, vc0, j, k);
    OrListHas(ob, OrMap(sql, args), k);
  }

  /** Every key of the OR map has its document in an OR list. */
  lemma OrListHas(ob: seq<Value>, om: Filter, k: string)
    requires IsOrList(ob, om) && k in om
    ensures Doc(map[k := om[k]]) in ob
  {
    assert OrDoc(om, k) in ob;
  }

  /** Every document of the `$or` list is the entry of a key some OR clause
      writes. */
  lemma OrListFromClauses(sql: string, args: seq<Value>, f: Filter, i: nat)
    requires SqlReady(sql, args) && IsSqlFilter(sql, args, f) && Contains(sql, OrSep)
    requires i < |f["$or"].items|
    ensures exists k ::
      && k in OrMap(sql, args)
      && f["$or"].items[i] == Doc(map[k := OrMap(sql, args)[k]])
      && (exists j :: 0 <= j < |PassClauses(sql, OrSep)| && Writes(sql, PassClauses(sql, OrSep)[j], k))
  {
    var om := OrMap(sql, args);
    PassMapKeys(sql, args, PassClauses(sql, OrSep), PassTakes(sql, AndSep));
    assert IsOrList(f["$or"].items, om);
    var k :| k in om && f["$or"].items[i] == OrDoc(om, k);
  }

  // ---------------------------------------------------------------------
  // Tagged structs

  /** The operator of a tag applied to the field's value. The tags "=" and
      "!=" add nothing: in the code they are empty cases of a switch, which
      does not fall through to "eq" / "ne". Unknown operators test equality. */
  function TagEntry(bm: Filter, op: string, k: string, v: Value): (r: Filter)
    ensures op == "=" || op == "!=" ==> r == bm
    ensures op != "=" && op != "!=" ==> r.Keys == bm.Keys + {k}
    ensures forall k' :: k' in bm && k' != k ==> r[k'] == bm[k']
  {
    if op == "=" || op == "!=" then bm
    else if op == "ne" then bm[k := Doc(map["$ne" := v])]
    else if op == "like" then bm[k := Doc(map["$regex" := v])]
    else if op == "in" then bm[k := Doc(map["$in" := v])]
    else bm[k := v]
  }

  /** The field is skipped: tagged "-", or holding its zero value. */
  predicate Skipped(f: Field)
  {
    f.tag == "-" || f.isZero
  }

  /** The key a field may write: its snake-case name, or the name after the
      comma of its tag. */
  function FieldKey(f: Field): string
  {
    if !Skipped(f) && f.tag != "" && |Split(f.tag, ",")| > 1 then Split(f.tag, ",")[1]
    else Snake(f.name)
  }

  /** The loop reads the field's value (`value.Interface()`): a skipped
      field under an "empty" tag, or a used field that is untagged or whose
      operator is not one of the empty cases "=" and "!=". */
  predicate ReadsValue(f: Field)
  {
    if Skipped(f) then HasPrefix(f.tag, "empty")
    else f.tag == "" || Split(f.tag, ",")[0] !in {"=", "!="}
  }

  /** An exported name starts with an upper-case letter. */
  predicate Exported(name: string)
  {
    name != [] && IsUpper(name[0])
  }

  /** Reflection hands out the value of exported fields only: reading an
      unexported field's value panics. */
  predicate Readable(f: Field)
  {
    ReadsValue(f) ==> Exported(f.name)
  }

  /** A used field tagged "=" or "!=" is never read, so it may be unexported,
      and it leaves the filter as it was. */
  lemma EmptyCaseFieldKeepsFilter(bm: Filter, f: Field)
    requires !Skipped(f) && f.tag != "" && Split(f.tag, ",")[0] in {"=", "!="}
    ensures !ReadsValue(f) && Readable(f)
    ensures ApplyField(bm, f) == bm
  {
  }

  /** A struct whose only field is unexported and tagged "=" is accepted,
      and its filter is the base map. */
  lemma UnexportedEqualsFieldAccepted(v: Value)
    ensures var q := QStruct([Field("x", "=", v, false)]);
      EntityQuery(q) && EntityFilter(q) == Base
  {
    var f := Field("x", "=", v, false);
    var t: string := "=";
    assert t[0..1][0] == '=' && ","[0] == ',';
    assert IndexFrom(t, ",", 0) == IndexFrom(t, ",", 1) == -1;
    assert Split(t, ",") == [t[0..]] == ["="];
    EmptyCaseFieldKeepsFilter(Base, f);
    assert [f][..0] == [];
    assert FieldsFilter([f]) == ApplyField(Base, f) == Base;
    assert "id" !in Base;
  }

  /** Every field of the struct can be read. */
  predicate AllReadable(fields: seq<Field>)
  {
    forall i :: 0 <= i < |fields| ==> Readable(fields[i])
  }

  /** One field applied to the filter. */
  function ApplyField(bm: Filter, f: Field): (r: Filter)
    requires Readable(f)
    ensures forall k :: k != FieldKey(f) ==> (k in r <==> k in bm)
    ensures forall k :: k in bm && k != FieldKey(f) ==> r[k] == bm[k]
    ensures bm.Keys <= r.Keys
    ensures Skipped(f) && !HasPrefix(f.tag, "nil") && !HasPrefix(f.tag, "empty") ==> r == bm
    ensures !Skipped(f) && f.tag == "" ==> r == bm[Snake(f.name) := f.value]
  {
    var key := Snake(f.name);
    if Skipped(f) then
      var bm1 := if HasPrefix(f.tag, "nil") then bm[key := Null] else bm;
      if HasPrefix(f.tag, "empty") then bm1[key := f.value] else bm1
    else if f.tag == "" then bm[key := f.value]
    else
      var lv := Split(f.tag, ",");
      TagEntry(bm, lv[0], FieldKey(f), f.value)
  }

  /** The filter after the field loop. */
  function FieldsFilter(fields: seq<Field>): Filter
    requires AllReadable(fields)
  {
    if fields == [] then Base
    else ApplyField(FieldsFilter(fields[..|fields| - 1]), fields[|fields| - 1])
  }

  /** The `id` entry, when present and non-null, moves to `_id`, unless some
      key already is `_id`. */
  function MoveId(bm: Filter): (r: Filter)
    ensures "_id" in bm ==> r == bm
    ensures "_id" !in bm && "id" in bm && bm["id"] != Null ==>
      "id" !in r && "_id" in r && r["_id"] == bm["id"]
    ensures forall k :: k != "id" && k != "_id" ==> (k in r <==> k in bm)
    ensures forall k :: k in bm && k != "id" && k != "_id" ==> r[k] == bm[k]
  {
    if "_id" !in bm && "id" in bm && bm["id"] != Null then bm["_id" := bm["id"]] - {"id"}
    else bm
  }

  /** The queries the entity builder accepts without panicking: no string
      other than "", and no struct with an unexported field it reads. */
  predicate EntityQuery(q: Query)
  {
    && (q.QString? ==> q.s == "")
    && (q.QStruct? ==> AllReadable(q.fields))
  }

  /** `buildMgoEntity`'s result: the base map for nil and "", otherwise the
      field loop followed by the `id` move. */
  function EntityFilter(q: Query): Filter
    requires EntityQuery(q)
  {
    match q
    case QStruct(fields) => MoveId(FieldsFilter(fields))
    case _ => Base
  }

  /** `buildMgoEntity`. */
  method BuildMgoEntity(entity: Query) returns (bm: Filter)
    requires EntityQuery(entity)
    ensures bm == EntityFilter(entity)
  {
    bm := Base;
    if entity.QNil? || entity == QString("") {
      return;
    }
    var fields := entity.fields;
    for i := 0 to |fields|
      invariant AllReadable(fields[..i])
      invariant bm == FieldsFilter(fields[..i])
    {
      assert fields[..i + 1][..i] == fields[..i];
      assert Readable(fields[i]);
      bm := AddField(bm, fields[i]);
    }
    assert fields[..|fields|] == fields;
    // The code walks the keys looking for "_id": a membership test.
    if "_id" !in bm {
      if "id" in bm && bm["id"] != Null {
        bm := bm["_id" := bm["id"]];
        bm := bm - {"id"};
      }
    }
  }

  /** The body of the field loop: a skipped field writes only for the
      "nil" and "empty" tag prefixes, an untagged one its value under its
      snake-case name, a tagged one the entry of its operator under its key. */
  method AddField(bm: Filter, field: Field) returns (r: Filter)
    requires Readable(field)
    ensures r == ApplyField(bm, field)
  {
    r := bm;
    var tag := field.tag;
    var value := field.value;
    var key := ToSnake(field.name);
    if tag == "-" || field.isZero {
      if HasPrefix(tag, "nil") {
        r := r[key := Null];
      }
      if HasPrefix(tag, "empty") {
        r := r[key := value];
      }
      return;
    }
    if tag == "" {
      r := r[key := value];
      return;
    }
    var lv := Split(tag, ",");
    if |lv| > 1 {
      key := lv[1];
    }
    r := AddTagged(r, lv[0], key, value);
  }

  /** The switch on a tag's operator. */
  method AddTagged(bm: Filter, op: string, key: string, value: Value) returns (r: Filter)
    ensures r == TagEntry(bm, op, key, value)
  {
    r := bm;
    match op
    case "=" =>
    case "eq" => r := r[key := value];
    case "!=" =>
    case "ne" => r := r[key := Doc(map["$ne" := value])];
    case "like" => r := r[key := Doc(map["$regex" := value])];
    case "in" => r := r[key := Doc(map["$in" := value])];
    case _ => r := r[key := value];
  }

  /** The field loop only adds or replaces entries: `deleted_at` is always
      there, and every key it holds is the key of some field or
      `deleted_at`. */
  lemma {:induction false} FieldsFilterKeys(fields: seq<Field>)
    requires AllReadable(fields)
    ensures "deleted_at" in FieldsFilter(fields)
    ensures forall k :: k in FieldsFilter(fields) ==>
      k == "deleted_at" || exists i :: 0 <= i < |fields| && FieldKey(fields[i]) == k
    decreases |fields|
  {
    if fields != [] {
      var init := fields[..|fields| - 1];
      FieldsFilterKeys(init);
      forall k | k in FieldsFilter(fields) && k != "deleted_at"
        ensures exists i :: 0 <= i < |fields| && FieldKey(fields[i]) == k
      {
        if k != FieldKey(fields[|fields| - 1]) {
          var i :| 0 <= i < |init| && FieldKey(init[i]) == k;
          assert fields[i] == init[i];
        }
      }
    }
  }

  /** An entity filter never keeps a non-null `id` without an `_id`, and
      always tests `deleted_at` unless a field named so replaced it. */
  lemma EntityFilterShape(q: Query)
    requires EntityQuery(q)
    ensures "deleted_at" in EntityFilter(q)
    ensures "id" in EntityFilter(q) && EntityFilter(q)["id"] != Null ==> "_id" in EntityFilter(q)
  {
    if q.QStruct? {
      FieldsFilterKeys(q.fields);
    }
  }

  // ---------------------------------------------------------------------
  // The builder's entry point

  /** The builder can be translated without panicking: a string expression
      whose passes find three tokens in each piece and the arguments they
      take, or an entity the builder accepts. */
  predicate MgoReady(c: CriteriaBuilder)
  {
    c.error.None? ==> if c.sql != "" then SqlReady(c.sql, c.vars) else EntityQuery(c.query)
  }

  /** `f` is a result `Mgo` may give for `c`. */
  predicate IsMgo(c: CriteriaBuilder, f: Option<Filter>)
    requires MgoReady(c)
  {
    if c.error.Some? then f.None?
    else f.Some? && if c.sql != "" then IsSqlFilter(c.sql, c.vars, f.value) else f.value == EntityFilter(c.query)
  }

  /** `CriteriaBuilder.Mgo`: nil (`None`) when the builder holds an error,
      the expression's filter when there is one, the entity's otherwise. */
  method Mgo(c: CriteriaBuilder) returns (f: Option<Filter>)
    requires MgoReady(c)
    ensures c.error.Some? <==> f.None?
    ensures c.error.None? && c.sql != "" ==> IsSqlFilter(c.sql, c.vars, f.value)
    ensures c.error.None? && c.sql == "" ==> f.value == EntityFilter(c.query)
    ensures IsMgo(c, f)
  {
    if c.error.Some? {
      return None;
    }
    if c.sql != "" {
      var bm := BuildMgoSql(c.sql, c.vars);
      return Some(bm);
    }
    var bm := BuildMgoEntity(c.query);
    return Some(bm);
  }

  /** A builder made by `Criteria` from a string in the domain is always
      ready: after the count check, the two passes cannot take more
      arguments than were given. */
  lemma CriteriaIsReady(query: Query, args: seq<Value>)
    requires query.QString? ==> SqlInDomain(query.s)
    requires query.QStruct? ==> AllReadable(query.fields)
    ensures MgoReady(Criteria(query, args))
  {
    if query.QString? {
      PassesConsumeAtMostPlaceholders(query.s);
    }
  }
}
