/** `BaseDAO`, the store interface the repository talks to. The interface's
    implementations are not part of this model: a `BaseDao` records every
    call made to it and answers from a fixed function of the calls made so
    far and the call itself, which stands for any deterministic store. */
module Dao {
  import opened Values
  import opened Types
  import opened Mdr

  /** A stored model, as reflection sees it: its `ID` field (`None` when the
      model has no field of that name), its `UpdatedAt` field (`None` when it
      has none), and its other fields. A model whose `ID` field is not a
      string (such as an `HID`, whose `String()` text names its type) is not
      representable. */
  datatype Model = Model(id: Option<string>, updatedAt: Option<Instant>, fields: map<string, Value>)

  /** A call on the interface, with its arguments. */
  datatype DaoCall =
    | InsertCall(model: Model)
    | InsertManyCall(models: seq<Model>)
    | FindCall(filter: Option<Filter>)
    | FindOneCall(filter: Option<Filter>)
    | UpdateCall(filter: Option<Filter>, update: Filter)
    | UpdateByIdCall(id: string, model: Model)
    | UpdateManyCall(filter: Option<Filter>, updates: seq<Value>)
    | PagingCall(filter: Option<Filter>, paging: PagingQuery)
    | CreateIndexesCall(indexes: seq<Value>)

  /** An answer: the models found, the single model found, the total, and
      the MDR. Each call reads the parts its result type has. */
  datatype DaoReply = DaoReply(models: seq<Model>, one: Model, total: int, mdr: MdrState)

  class BaseDao {
    /** Every call made, oldest first. */
    var calls: seq<DaoCall>
    /** The store's behaviour. */
    const answer: (seq<DaoCall>, DaoCall) -> DaoReply

    constructor (answer: (seq<DaoCall>, DaoCall) -> DaoReply)
      ensures calls == [] && this.answer == answer
    {
      calls := [];
      this.answer := answer;
    }

    /** The answer the next call `c` gets. */
    function Next(c: DaoCall): DaoReply
      reads this
    {
      answer(calls, c)
    }

    /** Records the call and hands back its answer, with a fresh MDR. */
    method Call(c: DaoCall) returns (reply: DaoReply, dr: MDR)
      modifies this
      ensures calls == old(calls) + [c]
      ensures reply == old(Next(c))
      ensures fresh(dr) && dr.State() == reply.mdr
    {
      reply := answer(calls, c);
      calls := calls + [c];
      dr := new MDR(reply.mdr);
    }

    method Insert(model: Model) returns (dr: MDR)
      modifies this
      ensures calls == old(calls) + [InsertCall(model)]
      ensures fresh(dr) && dr.State() == old(Next(InsertCall(model))).mdr
    {
      var _, d := Call(InsertCall(model));
      dr := d;
    }

    method InsertMany(models: seq<Model>) returns (dr: MDR)
      modifies this
      ensures calls == old(calls) + [InsertManyCall(models)]
      ensures fresh(dr) && dr.State() == old(Next(InsertManyCall(models))).mdr
    {
      var _, d := Call(InsertManyCall(models));
      dr := d;
    }

    method Find(filter: Option<Filter>) returns (ms: seq<Model>, dr: MDR)
      modifies this
      ensures calls == old(calls) + [FindCall(filter)]
      ensures ms == old(Next(FindCall(filter))).models
      ensures fresh(dr) && dr.State() == old(Next(FindCall(filter))).mdr
    {
      var reply, d := Call(FindCall(filter));
      ms, dr := reply.models, d;
    }

    method FindOne(filter: Option<Filter>) returns (m: Model, dr: MDR)
      modifies this
      ensures calls == old(calls) + [FindOneCall(filter)]
      ensures m == old(Next(FindOneCall(filter))).one
      ensures fresh(dr) && dr.State() == old(Next(FindOneCall(filter))).mdr
    {
      var reply, d := Call(FindOneCall(filter));
      m, dr := reply.one, d;
    }

    method Update(filter: Option<Filter>, update: Filter) returns (dr: MDR)
      modifies this
      ensures calls == old(calls) + [UpdateCall(filter, update)]
      ensures fresh(dr) && dr.State() == old(Next(UpdateCall(filter, update))).mdr
    {
      var _, d := Call(UpdateCall(filter, update));
      dr := d;
    }

    method UpdateById(id: string, model: Model) returns (dr: MDR)
      modifies this
      ensures calls == old(calls) + [UpdateByIdCall(id, model)]
      ensures fresh(dr) && dr.State() == old(Next(UpdateByIdCall(id, model))).mdr
    {
      var _, d := Call(UpdateByIdCall(id, model));
      dr := d;
    }

    method UpdateMany(filter: Option<Filter>, update: seq<Value>) returns (dr: MDR)
      modifies this
      ensures calls == old(calls) + [UpdateManyCall(filter, update)]
      ensures fresh(dr) && dr.State() == old(Next(UpdateManyCall(filter, update))).mdr
    {
      var _, d := Call(UpdateManyCall(filter, update));
      dr := d;
    }

    method Paging(filter: Option<Filter>, paging: PagingQuery) returns (ms: seq<Model>, total: int, dr: MDR)
      modifies this
      ensures calls == old(calls) + [PagingCall(filter, paging)]
      ensures ms == old(Next(PagingCall(filter, paging))).models
      ensures total == old(Next(PagingCall(filter, paging))).total
      ensures fresh(dr) && dr.State() == old(Next(PagingCall(filter, paging))).mdr
    {
      var reply, d := Call(PagingCall(filter, paging));
      ms, total, dr := reply.models, reply.total, d;
    }

    method CreateIndexes(indexes: seq<Value>) returns (dr: MDR)
      modifies this
      ensures calls == old(calls) + [CreateIndexesCall(indexes)]
      ensures fresh(dr) && dr.State() == old(Next(CreateIndexesCall(indexes))).mdr
    {
      var _, d := Call(CreateIndexesCall(indexes));
      dr := d;
    }
  }
}
