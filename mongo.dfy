/** `BaseMongoDAO`: how the document-store implementation of the DAO turns
    the driver's answers into MDRs and model lists, and which find options
    it sends. The driver itself is not part of this model: what each driver
    call returns is a parameter, and a cursor is the sequence of its
    documents' decode outcomes. */
module MongoDao {
  import opened Values
  import opened Types
  import opened Mdr
  import opened Dao

  /** The options of a find request: sort keys, limit and skip. */
  datatype FindOptions = FindOptions(sort: seq<(string, int)>, limit: Option<int>, skip: Option<int>)

  /** Every find sorts by `created_at`, newest first. */
  const NewestFirst: seq<(string, int)> := [("created_at", -1)]

  const FindAllOptions: FindOptions := FindOptions(NewestFirst, None, None)

  /** The options `Paging` sends: `Count` documents after skipping `Count`
      times `Page` of them, the product taken in int64 arithmetic. */
  function PagingOptions(p: PagingQuery): FindOptions
  {
    FindOptions(NewestFirst, Some(p.count), Some(WrapInt64(p.count * p.page)))
  }

  /** A page window starts where the previous one ends; page 0 starts at
      the beginning (as long as the products fit in an int64). */
  lemma PagingWindows(p: PagingQuery)
    requires IsInt64(p.count * p.page) && IsInt64(p.count * (p.page + 1))
    ensures PagingOptions(p).limit == Some(p.count)
    ensures PagingOptions(p).skip == Some(p.count * p.page)
    ensures PagingOptions(p.(page := p.page + 1)).skip.value ==
      PagingOptions(p).skip.value + PagingOptions(p).limit.value
    ensures p.page == 0 ==> PagingOptions(p).skip == Some(0)
  {
    assert p.count * (p.page + 1) == p.count * p.page + p.count;
  }

  /** The cursor loop: the models in order, or the first decode error. */
  function Drained(cur: seq<Result<Model, GoError>>): Result<seq<Model>, GoError>
  {
    if cur == [] then Ok([])
    else
      match Drained(cur[..|cur| - 1])
      case Err(e) => Err(e)
      case Ok(ms) =>
        match cur[|cur| - 1]
        case Err(e) => Err(e)
        case Ok(m) => Ok(ms + [m])
  }

  /** The loop yields every document, in order, exactly when all decode;
      otherwise it fails with the first decode error. */
  lemma {:induction false} DrainedAll(cur: seq<Result<Model, GoError>>)
    ensures Drained(cur).Ok? <==> forall i :: 0 <= i < |cur| ==> cur[i].Ok?
    ensures Drained(cur).Ok? ==>
      |Drained(cur).value| == |cur| && forall i :: 0 <= i < |cur| ==> Drained(cur).value[i] == cur[i].value
    ensures Drained(cur).Err? ==> exists i :: 0 <= i < |cur| && FirstError(cur, i) && cur[i].error == Drained(cur).error
    decreases |cur|
  {
    if cur != [] {
      var init := cur[..|cur| - 1];
      DrainedAll(init);
      assert forall i :: 0 <= i < |init| ==> init[i] == cur[i];
      if Drained(init).Err? {
        var i :| 0 <= i < |init| && FirstError(init, i) && init[i].error == Drained(init).error;
        assert FirstError(cur, i);
      } else if cur[|cur| - 1].Err? {
        assert FirstError(cur, |cur| - 1);
      }
    }
  }

  /** Document `i` is the first that fails to decode. */
  predicate FirstError(cur: seq<Result<Model, GoError>>, i: int)
  {
    0 <= i < |cur| && cur[i].Err? && forall j :: 0 <= j < i ==> cur[j].Ok?
  }

  /** `Insert`: the MDR holds the driver's error and the inserted id. */
  method Insert(insertedId: IdArg, err: Option<GoError>) returns (m: MDR)
    ensures fresh(m)
    ensures m.State() == WithIds(MdrState(0, err, []), insertedId)
  {
    m := new MDR(MdrState(0, err, []));
    m := m.SetID(insertedId);
  }

  /** `InsertMany`: sends the models as they are; the MDR counts the ids
      the driver reports, and lists them in order. */
  method InsertMany(models: seq<Model>, insertedIds: seq<string>, err: Option<GoError>) returns (docs: seq<Model>, m: MDR)
    ensures docs == models
    ensures fresh(m)
    ensures m.State() == MdrState(|insertedIds|, err, insertedIds)
  {
    docs := [];
    for i := 0 to |models|
      invariant docs == models[..i]
    {
      docs := docs + [models[i]];
    }
    m := new MDR(MdrState(0, err, []));
    m := m.SetID(ManyIds(insertedIds));
  }

  /** `Update` (and `UpdateMany`): the modified count, then the upserted
      id when there is one, which resets the count. */
  method Update(modifiedCount: int, upsertedId: IdArg, err: Option<GoError>) returns (m: MDR)
    ensures fresh(m)
    ensures m.State() == WithIds(MdrState(modifiedCount, err, []), upsertedId)
    ensures upsertedId.NoId? ==> m.count == modifiedCount
  {
    m := new MDR(MdrState(modifiedCount, err, []));
    m := m.SetID(upsertedId);
  }

  /** `UpdateById`: whatever the driver reports as modified, the MDR
      counts 1 and lists the id it was given. */
  method UpdateById(id: string, modifiedCount: int, err: Option<GoError>) returns (m: MDR)
    ensures fresh(m)
    ensures m.State() == MdrState(1, err, [id])
    ensures m.ids != [] && m.ID() == id
  {
    m := new MDR(MdrState(modifiedCount, err, []));
    m := m.SetID(OneId(id));
  }

  /** `Find`: no models and an error MDR when the query or a decode fails,
      otherwise every model and an MDR counting them. */
  method Find(findErr: Option<GoError>, cur: seq<Result<Model, GoError>>)
    returns (opts: FindOptions, items: Option<seq<Model>>, m: MDR)
    ensures opts == FindAllOptions
    ensures fresh(m)
    ensures findErr.Some? ==> items.None? && m.State() == MdrState(0, findErr, [])
    ensures findErr.None? && Drained(cur).Err? ==>
      items.None? && m.State() == MdrState(0, Some(Drained(cur).error), [])
    ensures findErr.None? && Drained(cur).Ok? ==>
      items == Some(Drained(cur).value) && m.State() == MdrState(|cur|, None, [])
  {
    opts := FindAllOptions;
    if findErr.Some? {
      m := NewErrMDR(findErr);
      return opts, None, m;
    }
    var r := Collect(cur);
    if r.Err? {
      m := NewErrMDR(Some(r.error));
      return opts, None, m;
    }
    DrainedAll(cur);
    items := Some(r.value);
    m := new MDR(MdrState(0, None, []));
    m := m.SetCount(|r.value|);
  }

  /** `FindOne`: the decoded model in either case; an error MDR when
      decoding fails, otherwise an MDR counting 1. */
  method FindOne(decoded: Model, decodeErr: Option<GoError>) returns (opts: FindOptions, r: Model, m: MDR)
    ensures opts == FindAllOptions && r == decoded
    ensures fresh(m)
    ensures m.State() == if decodeErr.Some? then MdrState(0, decodeErr, []) else MdrState(1, None, [])
  {
    opts := FindAllOptions;
    r := decoded;
    if decodeErr.Some? {
      m := NewErrMDR(decodeErr);
      return;
    }
    m := new MDR(MdrState(0, None, []));
    m := m.SetCount(1);
  }

  /** The loop over the cursor, stopping at the first decode error. */
  method Collect(cur: seq<Result<Model, GoError>>) returns (r: Result<seq<Model>, GoError>)
    ensures r == Drained(cur)
  {
    var ms := [];
    for i := 0 to |cur|
      invariant Drained(cur[..i]) == Ok(ms)
    {
      assert cur[..i + 1][..i] == cur[..i];
      match cur[i] {
        case Err(e) =>
          DrainedStops(cur, i);
          return Err(e);
        case Ok(doc) =>
          ms := ms + [doc];
      }
    }
    assert cur[..|cur|] == cur;
    r := Ok(ms);
  }

  /** Once document `i` fails, the whole cursor fails with its error. */
  lemma {:induction false} DrainedStops(cur: seq<Result<Model, GoError>>, i: nat)
    requires i < |cur| && Drained(cur[..i]).Ok? && cur[i].Err?
    ensures Drained(cur) == Err(cur[i].error)
    decreases |cur| - i
  {
    assert cur[..i + 1][..i] == cur[..i];
    assert Drained(cur[..i + 1]) == Err(cur[i].error);
    DrainedErrSticks(cur, i + 1);
  }

  /** A failed prefix makes every longer prefix fail the same way. */
  lemma {:induction false} DrainedErrSticks(cur: seq<Result<Model, GoError>>, k: nat)
    requires 0 < k <= |cur| && Drained(cur[..k]).Err?
    ensures Drained(cur) == Drained(cur[..k])
    decreases |cur| - k
  {
    if k == |cur| {
      assert cur[..k] == cur;
    } else {
      assert cur[..k + 1][..k] == cur[..k];
      DrainedErrSticks(cur, k + 1);
    }
  }

  /** `Paging`: the page options; on a query or decode error no models, a
      total of 0 and an error MDR; on a count error no models, the count
      the driver reported and an error MDR; otherwise the page's models,
      the count and an MDR counting the page's models. */
  method Paging(paging: PagingQuery, findErr: Option<GoError>, cur: seq<Result<Model, GoError>>,
                counted: int, countErr: Option<GoError>)
    returns (opts: FindOptions, items: Option<seq<Model>>, total: int, m: MDR)
    ensures opts == PagingOptions(paging)
    ensures fresh(m)
    ensures findErr.Some? ==> items.None? && total == 0 && m.State() == MdrState(0, findErr, [])
    ensures findErr.None? && Drained(cur).Err? ==>
      items.None? && total == 0 && m.State() == MdrState(0, Some(Drained(cur).error), [])
    ensures findErr.None? && Drained(cur).Ok? && countErr.Some? ==>
      items.None? && total == counted && m.State() == MdrState(0, countErr, [])
    ensures findErr.None? && Drained(cur).Ok? && countErr.None? ==>
      && items == Some(Drained(cur).value) && total == counted
      && m.State() == MdrState(|cur|, None, [])
  {
    opts := FindOptions(NewestFirst, Some(paging.count), Some(WrapInt64(paging.count * paging.page)));
    if findErr.Some? {
      m := NewErrMDR(findErr);
      return opts, None, 0, m;
    }
    var r := Collect(cur);
    if r.Err? {
      m := NewErrMDR(Some(r.error));
      return opts, None, 0, m;
    }
    if countErr.Some? {
      m := NewErrMDR(countErr);
      return opts, None, counted, m;
    }
    DrainedAll(cur);
    items, total := Some(r.value), counted;
    m := new MDR(MdrState(0, None, []));
    m := m.SetCount(|r.value|);
  }

  /** `CreateIndexes`: an MDR holding only the driver's error. */
  method CreateIndexes(err: Option<GoError>) returns (m: MDR)
    ensures fresh(m)
    ensures m.State() == MdrState(0, err, [])
  {
    m := NewErrMDR(err);
  }
}
