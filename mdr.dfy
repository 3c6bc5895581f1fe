/** `MDR`, the outcome of a store operation: how many documents it
    touched, its error, and the identifiers it produced. */
module Mdr {
  import opened Values

  /** The fields of an `MDR`. */
  datatype MdrState = MdrState(count: int, error: Option<GoError>, ids: seq<string>)

  /** The identifier argument `setID` is given: nil, a list of ids, or one
      id. */
  datatype IdArg = NoId | ManyIds(list: seq<string>) | OneId(id: string)

  /** What `setID` makes of an MDR. */
  function WithIds(s: MdrState, id: IdArg): MdrState
  {
    match id
    case NoId => s
    case ManyIds(l) => s.(count := |l|, ids := s.ids + l)
    case OneId(x) => s.(count := 1, ids := s.ids + [x])
  }

  /** `setID` keeps the error and the ids already there, and adds the new
      ids after them in order; the count is the number of ids given. */
  lemma WithIdsAppends(s: MdrState, id: IdArg)
    ensures WithIds(s, id).error == s.error
    ensures id.NoId? ==> WithIds(s, id) == s
    ensures id.ManyIds? ==>
      WithIds(s, id).count == |id.list| && WithIds(s, id).ids[|s.ids|..] == id.list
    ensures id.OneId? ==>
      WithIds(s, id).count == 1 && WithIds(s, id).ids[|s.ids|..] == [id.id]
    ensures WithIds(s, id).ids[..|s.ids|] == s.ids
  {
  }

  /** The first identifier an MDR holds: one of its ids, and the one that
      a later `setID` keeps in front. */
  function FirstId(s: MdrState): (id: string)
    requires s.ids != []
    ensures id in s.ids
    ensures forall arg: IdArg :: WithIds(s, arg).ids != [] && WithIds(s, arg).ids[0] == id
  {
    s.ids[0]
  }

  /** After `setID` an MDR that held no ids has as first identifier the
      first one given; one that held some keeps its first. */
  lemma FirstIdAfterSetID(s: MdrState, arg: IdArg)
    requires s.ids != [] || (arg.ManyIds? && arg.list != []) || arg.OneId?
    ensures WithIds(s, arg).ids != []
    ensures s.ids != [] ==> FirstId(WithIds(s, arg)) == FirstId(s)
    ensures s.ids == [] && arg.OneId? ==> FirstId(WithIds(s, arg)) == arg.id
    ensures s.ids == [] && arg.ManyIds? ==> FirstId(WithIds(s, arg)) == arg.list[0]
  {
  }

  class MDR {
    var count: int
    var error: Option<GoError>
    var ids: seq<string>

    function State(): MdrState
      reads this
    {
      MdrState(count, error, ids)
    }

    /** An `&MDR{...}` composite literal. */
    constructor (s: MdrState)
      ensures State() == s
    {
      count := s.count;
      error := s.error;
      ids := s.ids;
    }

    /** `ID`: the first identifier (the code panics when there is none). */
    function ID(): (id: string)
      reads this
      requires ids != []
      ensures id == FirstId(State())
    {
      ids[0]
    }

    /** `setID`, which returns its receiver. */
    method SetID(id: IdArg) returns (self: MDR)
      modifies this
      ensures self == this
      ensures State() == WithIds(old(State()), id)
    {
      self := this;
      match id {
        case NoId =>
          return;
        case ManyIds(l) =>
          count := |l|;
          for i := 0 to |l|
            invariant count == |l| && error == old(error)
            invariant ids == old(ids) + l[..i]
          {
            ids := ids + [l[i]];
            assert l[..i + 1] == l[..i] + [l[i]];
          }
          assert l[..|l|] == l;
        case OneId(x) =>
          count := 1;
          ids := ids + [x];
      }
    }

    /** `SetCount`, which returns its receiver. */
    method SetCount(c: int) returns (self: MDR)
      modifies this
      ensures self == this
      ensures State() == old(State()).(count := c)
    {
      count := c;
      self := this;
    }
  }

  /** `newErrMDR`: a fresh MDR holding only the error. */
  method NewErrMDR(err: Option<GoError>) returns (m: MDR)
    ensures fresh(m)
    ensures m.State() == MdrState(0, err, [])
  {
    m := new MDR(MdrState(0, err, []));
  }
}
