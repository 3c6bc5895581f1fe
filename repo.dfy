/** `BaseRepo`: converts between the entities callers see and the models the
    store keeps, and turns repository requests into store calls. The
    reflective copier is a parameter: `copyToModel` / `copyToEntity` give
    the target it fills from a source under the given copy settings (a copy
    error is only logged, so the target is all that is observed). */
module Repository {
  import opened Values
  import opened Criteria
  import opened Types
  import opened Copier
  import opened Mdr
  import opened Dao

  /** `BaseConverter`: a caller's own conversions. */
  datatype Converter<!E> = Converter(
    toModel: E -> Model,
    toEntity: Model -> E,
    toEntities: seq<Model> -> seq<E>,
    toModels: seq<E> -> seq<Model>)

  /** The identifier text of a model not yet stored. */
  const ZeroId: string := "00000000000000000000"

  /** What `reflect.Value.String` gives for a field that does not exist. */
  const InvalidValue: string := "<invalid Value>"

  /** The text of a model's `ID` field. */
  function IdText(m: Model): string
  {
    if m.id.Some? then m.id.value else InvalidValue
  }

  /** The document a soft delete sets. */
  function DeletedAt(now: Instant): Filter
  {
    map["deleted_at" := Time(now)]
  }

  /** The store call `Save` makes for model `m`: an insert under the new
      identifier when the model's ID is the zero identifier, otherwise an
      update by ID with `UpdatedAt` refreshed when the model has one. */
  function SaveCall(m: Model, now: Instant, newId: HID): DaoCall
  {
    if IdText(m) == ZeroId then InsertCall(m.(id := Some(HidString(newId))))
    else UpdateByIdCall(IdText(m), if m.updatedAt.Some? then m.(updatedAt := Some(now)) else m)
  }

  /** `Save` inserts exactly when the ID is the 20-zero text; an insert
      changes only the ID, an update only `UpdatedAt`, and a model without
      an ID field is updated under the text "<invalid Value>". */
  lemma SaveDecision(m: Model, now: Instant, newId: HID)
    ensures SaveCall(m, now, newId).InsertCall? <==> m.id == Some(ZeroId)
    ensures SaveCall(m, now, newId).InsertCall? ==>
      && SaveCall(m, now, newId).model.id == Some(newId.text)
      && SaveCall(m, now, newId).model.updatedAt == m.updatedAt
      && SaveCall(m, now, newId).model.fields == m.fields
    ensures SaveCall(m, now, newId).UpdateByIdCall? ==>
      && SaveCall(m, now, newId).model.id == m.id
      && SaveCall(m, now, newId).model.fields == m.fields
      && (m.updatedAt.Some? <==> SaveCall(m, now, newId).model.updatedAt == Some(now))
      && (m.id.Some? ==> SaveCall(m, now, newId).id == m.id.value)
      && (m.id.None? ==> SaveCall(m, now, newId).id == InvalidValue)
  {
    assert InvalidValue != ZeroId by { assert InvalidValue[0] != ZeroId[0]; }
  }

  /** One more call was made and the earlier ones are unchanged. */
  predicate OneMore(before: seq<DaoCall>, after: seq<DaoCall>)
  {
    |after| == |before| + 1 && after[..|before|] == before
  }

  function Last(calls: seq<DaoCall>): DaoCall
    requires calls != []
  {
    calls[|calls| - 1]
  }

  class BaseRepo<E> {
    const dao: BaseDao
    var cv: Option<Converter<E>>
    var typeConverter: seq<TypeConverter>
    const copyToModel: (Settings, E) -> Model
    const copyToEntity: (Settings, Model) -> E
    /** The zero entity (`var e E`). */
    const zero: E

    /** `NewBaseRepository`: no converter, no extra type converters. */
    constructor (dao: BaseDao, copyToModel: (Settings, E) -> Model, copyToEntity: (Settings, Model) -> E, zero: E)
      ensures this.dao == dao && this.copyToModel == copyToModel && this.copyToEntity == copyToEntity
      ensures this.zero == zero
      ensures cv.None? && typeConverter == []
    {
      this.dao := dao;
      this.copyToModel := copyToModel;
      this.copyToEntity := copyToEntity;
      this.zero := zero;
      cv := None;
      typeConverter := [];
    }

    /** `WithModelConverter`, which returns its receiver. */
    method WithModelConverter(c: Converter<E>) returns (r: BaseRepo<E>)
      modifies this
      ensures r == this && cv == Some(c) && typeConverter == old(typeConverter)
    {
      cv := Some(c);
      r := this;
    }

    /** `WithTypeConverter`, which returns its receiver. */
    method WithTypeConverter(tc: seq<TypeConverter>) returns (r: BaseRepo<E>)
      modifies this
      ensures r == this && typeConverter == tc && cv == old(cv)
    {
      typeConverter := tc;
      r := this;
    }

    /** The settings the default conversions copy with. */
    function CopyOptions(): Settings
      reads this
    {
      CopySettings([WithCopyConverters(typeConverter)])
    }

    /** The default copy uses the four built-in converters followed by the
        repository's own, and no other setting. */
    lemma DefaultCopyOptions()
      ensures CopyOptions() == Settings(BuiltinConverters + typeConverter, false, false, false, [])
    {
      var opts := [WithCopyConverters(typeConverter)];
      ConvertersStartWithBuiltins(opts);
      assert opts[..|opts| - 1] == [];
      assert ApplyCopyOptions(InitialSettings, opts[..|opts| - 1]) == InitialSettings;
      assert CopyOptions() == ApplyCopyOption(InitialSettings, opts[0]);
      assert ExtraConverters(opts) == typeConverter;
    }

    function ModelOf(e: E): Model
      reads this
    {
      if cv.Some? then cv.value.toModel(e) else copyToModel(CopyOptions(), e)
    }

    function EntityOf(m: Model): E
      reads this
    {
      if cv.Some? then cv.value.toEntity(m) else copyToEntity(CopyOptions(), m)
    }

    /** The default list conversion: element by element. */
    function CopiedEntities(ms: seq<Model>): seq<E>
      reads this
    {
      if ms == [] then [] else CopiedEntities(ms[..|ms| - 1]) + [EntityOf(ms[|ms| - 1])]
    }

    function CopiedModels(es: seq<E>): seq<Model>
      reads this
    {
      if es == [] then [] else CopiedModels(es[..|es| - 1]) + [ModelOf(es[|es| - 1])]
    }

    function EntitiesOf(ms: seq<Model>): seq<E>
      reads this
    {
      if cv.Some? then cv.value.toEntities(ms) else CopiedEntities(ms)
    }

    function ModelsOf(es: seq<E>): seq<Model>
      reads this
    {
      if cv.Some? then cv.value.toModels(es) else CopiedModels(es)
    }

    /** Without a converter, one entity per model, in order. */
    lemma {:induction false} CopiedEntitiesPointwise(ms: seq<Model>)
      ensures |CopiedEntities(ms)| == |ms|
      ensures forall i :: 0 <= i < |ms| ==> CopiedEntities(ms)[i] == EntityOf(ms[i])
      decreases |ms|
    {
      if ms != [] {
        CopiedEntitiesPointwise(ms[..|ms| - 1]);
      }
    }

    /** Without a converter, one model per entity, in order. */
    lemma {:induction false} CopiedModelsPointwise(es: seq<E>)
      ensures |CopiedModels(es)| == |es|
      ensures forall i :: 0 <= i < |es| ==> CopiedModels(es)[i] == ModelOf(es[i])
      decreases |es|
    {
      if es != [] {
        CopiedModelsPointwise(es[..|es| - 1]);
      }
    }

    /** `ToModel`: the converter's result when one is set, else the copy. */
    method ToModel(e: E) returns (m: Model)
      ensures cv.Some? ==> m == cv.value.toModel(e)
      ensures cv.None? ==> m == copyToModel(Settings(BuiltinConverters + typeConverter, false, false, false, []), e)
      ensures m == ModelOf(e)
    {
      if cv.Some? {
        return cv.value.toModel(e);
      }
      var co := Copy([WithCopyConverters(typeConverter)]);
      m := copyToModel(co.State(), e);
      DefaultCopyOptions();
    }

    /** `ToEntity`: the converter's result when one is set, else the copy. */
    method ToEntity(m: Model) returns (e: E)
      ensures cv.Some? ==> e == cv.value.toEntity(m)
      ensures cv.None? ==> e == copyToEntity(Settings(BuiltinConverters + typeConverter, false, false, false, []), m)
      ensures e == EntityOf(m)
    {
      if cv.Some? {
        return cv.value.toEntity(m);
      }
      var co := Copy([WithCopyConverters(typeConverter)]);
      e := copyToEntity(co.State(), m);
      DefaultCopyOptions();
    }

    /** `ToEntities`: wholly the converter's when one is set, else one
        `ToEntity` per model, appended in order. */
    method ToEntities(ms: seq<Model>) returns (es: seq<E>)
      ensures cv.Some? ==> es == cv.value.toEntities(ms)
      ensures cv.None? ==> |es| == |ms| && forall i :: 0 <= i < |ms| ==> es[i] == EntityOf(ms[i])
      ensures es == EntitiesOf(ms)
    {
      if cv.Some? {
        return cv.value.toEntities(ms);
      }
      es := [];
      for i := 0 to |ms|
        invariant es == CopiedEntities(ms[..i])
      {
        var e := ToEntity(ms[i]);
        es := es + [e];
        assert ms[..i + 1][..i] == ms[..i];
      }
      assert ms[..|ms|] == ms;
      CopiedEntitiesPointwise(ms);
    }

    /** `ToModels`: wholly the converter's when one is set, else one
        `ToModel` per entity, appended in order. */
    method ToModels(es: seq<E>) returns (ms: seq<Model>)
      ensures cv.Some? ==> ms == cv.value.toModels(es)
      ensures cv.None? ==> |ms| == |es| && forall i :: 0 <= i < |es| ==> ms[i] == ModelOf(es[i])
      ensures ms == ModelsOf(es)
    {
      if cv.Some? {
        return cv.value.toModels(es);
      }
      ms := [];
      for i := 0 to |es|
        invariant ms == CopiedModels(es[..i])
      {
        var m := ToModel(es[i]);
        ms := ms + [m];
        assert es[..i + 1][..i] == es[..i];
      }
      assert es[..|es|] == es;
      CopiedModelsPointwise(es);
    }

    /** `Save`: one store call, the one `SaveCall` names, and its MDR. */
    method Save(entity: E, now: Instant, newId: HID) returns (dr: MDR)
      modifies dao
      ensures dao.calls == old(dao.calls) + [SaveCall(ModelOf(entity), now, newId)]
      ensures fresh(dr) && dr.State() == dao.answer(old(dao.calls), SaveCall(ModelOf(entity), now, newId)).mdr
    {
      var m := ToModel(entity);
      if IdText(m) != ZeroId {
        var stamped := if m.updatedAt.Some? then m.(updatedAt := Some(now)) else m;
        dr := dao.UpdateById(IdText(m), stamped);
      } else {
        dr := dao.Insert(m.(id := Some(HidString(newId))));
      }
    }

    /** `Find`: the store's MDR as it is; no entities when it holds an
        error, the converted models otherwise. */
    method Find(filter: CriteriaBuilder) returns (es: Option<seq<E>>, dr: MDR)
      requires MgoReady(filter)
      modifies dao
      ensures OneMore(old(dao.calls), dao.calls)
      ensures Last(dao.calls).FindCall? && IsMgo(filter, Last(dao.calls).filter)
      ensures var reply := dao.answer(old(dao.calls), Last(dao.calls));
        && fresh(dr) && dr.State() == reply.mdr
        && (reply.mdr.error.Some? ==> es.None?)
        && (reply.mdr.error.None? ==> es == Some(EntitiesOf(reply.models)))
    {
      var f := Mgo(filter);
      var ms, d := dao.Find(f);
      dr := d;
      if d.error.Some? {
        return None, dr;
      }
      var converted := ToEntities(ms);
      es := Some(converted);
    }

    /** `FindOne`: the store's MDR as it is; the zero entity when it holds
        an error, the converted model otherwise. */
    method FindOne(filter: CriteriaBuilder) returns (e: E, dr: MDR)
      requires MgoReady(filter)
      modifies dao
      ensures OneMore(old(dao.calls), dao.calls)
      ensures Last(dao.calls).FindOneCall? && IsMgo(filter, Last(dao.calls).filter)
      ensures var reply := dao.answer(old(dao.calls), Last(dao.calls));
        && fresh(dr) && dr.State() == reply.mdr
        && (reply.mdr.error.Some? ==> e == zero)
        && (reply.mdr.error.None? ==> e == EntityOf(reply.one))
    {
      var f := Mgo(filter);
      var m, d := dao.FindOne(f);
      dr := d;
      if d.error.Some? {
        return zero, dr;
      }
      e := ToEntity(m);
    }

    /** `Paging`: the store's MDR as it is; no entities and a total of 0
        when it holds an error, the converted models and the store's total
        otherwise. */
    method Paging(filter: CriteriaBuilder, paging: PagingQuery) returns (es: Option<seq<E>>, total: int, dr: MDR)
      requires MgoReady(filter)
      modifies dao
      ensures OneMore(old(dao.calls), dao.calls)
      ensures Last(dao.calls).PagingCall? && Last(dao.calls).paging == paging
      ensures IsMgo(filter, Last(dao.calls).filter)
      ensures var reply := dao.answer(old(dao.calls), Last(dao.calls));
        && fresh(dr) && dr.State() == reply.mdr
        && (reply.mdr.error.Some? ==> es.None? && total == 0)
        && (reply.mdr.error.None? ==> es == Some(EntitiesOf(reply.models)) && total == reply.total)
    {
      var f := Mgo(filter);
      var ms, count, d := dao.Paging(f, paging);
      dr := d;
      if d.error.Some? {
        return None, 0, dr;
      }
      var converted := ToEntities(ms);
      es, total := Some(converted), count;
    }

    /** `Remove`: a soft delete, one `Update` setting only `deleted_at`. */
    method Remove(filter: CriteriaBuilder, now: Instant) returns (dr: MDR)
      requires MgoReady(filter)
      modifies dao
      ensures OneMore(old(dao.calls), dao.calls)
      ensures Last(dao.calls).UpdateCall? && Last(dao.calls).update == DeletedAt(now)
      ensures IsMgo(filter, Last(dao.calls).filter)
      ensures fresh(dr) && dr.State() == dao.answer(old(dao.calls), Last(dao.calls)).mdr
    {
      var f := Mgo(filter);
      dr := dao.Update(f, DeletedAt(now));
    }

    /** `Exist`: `FindOne`'s MDR counts at least one document. */
    method Exist(filter: CriteriaBuilder) returns (b: bool)
      requires MgoReady(filter)
      modifies dao
      ensures OneMore(old(dao.calls), dao.calls)
      ensures Last(dao.calls).FindOneCall? && IsMgo(filter, Last(dao.calls).filter)
      ensures b <==> dao.answer(old(dao.calls), Last(dao.calls)).mdr.count > 0
    {
      var _, dr := FindOne(filter);
      b := dr.count > 0;
    }
  }
}
