/** `BaseSrv`: the service layer over a repository. Each method builds the
    criteria from the caller's query, with no arguments, and passes the
    repository's error on. Logging is not part of this model. */
module Service {
  import opened Values
  import opened Criteria
  import opened Types
  import opened Dao
  import opened Repository

  class BaseSrv<E> {
    const repo: BaseRepo<E>

    /** `NewBaseService`. */
    constructor (repo: BaseRepo<E>)
      ensures this.repo == repo
    {
      this.repo := repo;
    }

    /** `FindOne`: the repository's entity and its MDR's error. */
    method FindOne(query: Query) returns (e: E, err: Option<GoError>)
      requires MgoReady(Criteria.Criteria(query, []))
      modifies repo.dao
      ensures OneMore(old(repo.dao.calls), repo.dao.calls)
      ensures var c := Last(repo.dao.calls);
        c.FindOneCall? && IsMgo(Criteria.Criteria(query, []), c.filter)
      ensures var reply := repo.dao.answer(old(repo.dao.calls), Last(repo.dao.calls));
        && err == reply.mdr.error
        && e == (if err.Some? then repo.zero else repo.EntityOf(reply.one))
    {
      var r;
      e, r := repo.FindOne(Criteria.Criteria(query, []));
      err := r.error;
    }

    /** `Find`: the repository's entities (none on error) and its error. */
    method Find(query: Query) returns (es: Option<seq<E>>, err: Option<GoError>)
      requires MgoReady(Criteria.Criteria(query, []))
      modifies repo.dao
      ensures OneMore(old(repo.dao.calls), repo.dao.calls)
      ensures var c := Last(repo.dao.calls);
        c.FindCall? && IsMgo(Criteria.Criteria(query, []), c.filter)
      ensures var reply := repo.dao.answer(old(repo.dao.calls), Last(repo.dao.calls));
        && err == reply.mdr.error
        && es == (if err.Some? then None else Some(repo.EntitiesOf(reply.models)))
    {
      var r;
      es, r := repo.Find(Criteria.Criteria(query, []));
      err := r.error;
    }

    /** `Paging`: the envelope always echoes the requested page and size;
        on an error it has a total of 0 and no items, otherwise the
        repository's items and total. */
    method Paging(query: Query, paging: PagingQuery) returns (dto: PagingDTO<E>, err: Option<GoError>)
      requires MgoReady(Criteria.Criteria(query, []))
      modifies repo.dao
      ensures dto.page == paging.page && dto.count == paging.count
      ensures OneMore(old(repo.dao.calls), repo.dao.calls)
      ensures var c := Last(repo.dao.calls);
        c.PagingCall? && c.paging == paging && IsMgo(Criteria.Criteria(query, []), c.filter)
      ensures var reply := repo.dao.answer(old(repo.dao.calls), Last(repo.dao.calls));
        && err == reply.mdr.error
        && (err.Some? ==> dto.total == 0 && dto.items.None?)
        && (err.None? ==> dto.total == reply.total && dto.items == Some(repo.EntitiesOf(reply.models)))
    {
      dto := PagingDTO(paging.page, paging.count, 0, None);
      var items, total, r := repo.Paging(Criteria.Criteria(query, []), paging);
      if r.error.Some? {
        return dto, r.error;
      }
      dto := dto.(items := items, total := total);
      err := None;
    }

    /** `Remove`: a soft delete through the repository; its error. */
    method Remove(query: Query, now: Instant) returns (err: Option<GoError>)
      requires MgoReady(Criteria.Criteria(query, []))
      modifies repo.dao
      ensures OneMore(old(repo.dao.calls), repo.dao.calls)
      ensures var c := Last(repo.dao.calls);
        c.UpdateCall? && c.update == DeletedAt(now) && IsMgo(Criteria.Criteria(query, []), c.filter)
      ensures err == repo.dao.answer(old(repo.dao.calls), Last(repo.dao.calls)).mdr.error
    {
      var r := repo.Remove(Criteria.Criteria(query, []), now);
      err := r.error;
    }
  }
}
