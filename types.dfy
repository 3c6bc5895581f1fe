/** Shared types: `UnixTime`, an instant that travels in JSON as its
    millisecond count, and the record shapes the repository layer passes
    around (`BaseModel`, `IdentityQuery`, `PagingQuery`, `PagingDTO`). */
module Types {
  import opened Values
  import opened Decimal
  import opened Text
  import opened Criteria

  /** The text `MarshalJSON` writes for an instant: its Unix milliseconds,
      computed in int64 arithmetic, in decimal without quotes. */
  function EncodeUnixTime(t: Instant): string
  {
    FormatInt(WrapInt64(UnixMilli(t)))
  }

  /** What `UnmarshalJSON` reads from a text: the milliseconds of the text
      with every surrounding '"' removed, or the parser's error. */
  function DecodeUnixTime(b: string): Result<int, NumError>
  {
    ParseInt(TrimQuotes(b))
  }

  /** `UnixTime`: a `time.Time` with its own JSON form. */
  class UnixTime {
    var t: Instant

    /** `NewUnixTime`. */
    constructor (t: Instant)
      ensures this.t == t
    {
      this.t := t;
    }

    /** `MarshalJSON`; it never fails. */
    method MarshalJSON() returns (b: string)
      ensures b == EncodeUnixTime(t)
    {
      b := FormatInt(WrapInt64(UnixMilli(t)));
    }

    /** `UnmarshalJSON`: the instant is replaced only when the text parses. */
    method UnmarshalJSON(b: string) returns (err: Option<NumError>)
      modifies this
      ensures DecodeUnixTime(b).Err? ==> err == Some(DecodeUnixTime(b).error) && t == old(t)
      ensures DecodeUnixTime(b).Ok? ==> err.None? && t == FromUnixMilli(DecodeUnixTime(b).value)
    {
      var trimmed := TrimQuotes(b);
      var r := ParseInt(trimmed);
      match r
      case Err(e) => return Some(e);
      case Ok(ms) =>
        t := FromUnixMilli(ms);
        return None;
    }
  }

  /** The text written for an instant is an unquoted decimal integer. */
  lemma EncodeIsDecimal(t: Instant)
    ensures IsDecimalText(EncodeUnixTime(t))
    ensures SignedValue(EncodeUnixTime(t)) == WrapInt64(UnixMilli(t))
    ensures forall i :: 0 <= i < |EncodeUnixTime(t)| ==> EncodeUnixTime(t)[i] != '"'
  {
    var ms := WrapInt64(UnixMilli(t));
    ParseFormat(ms);
    ParseIntAccepts(FormatInt(ms));
    var s := FormatInt(ms);
    forall i | 0 <= i < |s| ensures s[i] != '"' {
      if ms < 0 {
        if i > 0 { assert s[i] == Digits(-ms)[i - 1]; }
      } else {
        assert s[i] == Digits(ms)[i];
      }
    }
  }

  /** Round trip: reading back what was written gives the same
      milliseconds, so the instant comes back to the start of its
      millisecond (for instants whose milliseconds fit in an int64). */
  lemma DecodeEncode(t: Instant)
    ensures DecodeUnixTime(EncodeUnixTime(t)) == Ok(WrapInt64(UnixMilli(t)))
    ensures IsInt64(UnixMilli(t)) ==>
      UnixMilli(FromUnixMilli(DecodeUnixTime(EncodeUnixTime(t)).value)) == UnixMilli(t)
  {
    var ms := WrapInt64(UnixMilli(t));
    TrimFormat(ms);
    ParseFormat(ms);
    UnixMilliOfFromUnixMilli(ms);
  }

  /** The quoted and unquoted forms of a number read the same. */
  lemma DecodeQuoted(ms: int, left: nat, right: nat)
    requires IsInt64(ms)
    ensures DecodeUnixTime(Quotes(left) + FormatInt(ms) + Quotes(right)) == Ok(ms)
    ensures DecodeUnixTime(FormatInt(ms)) == Ok(ms)
  {
    TrimQuotedFormat(ms, left, right);
    TrimFormat(ms);
    ParseFormat(ms);
  }

  /** A text is accepted exactly when, once its quotes are trimmed, it is
      an optionally signed decimal int64, and then its value is read. */
  lemma DecodeAccepts(b: string)
    ensures DecodeUnixTime(b).Ok? <==>
      IsDecimalText(TrimQuotes(b)) && IsInt64(SignedValue(TrimQuotes(b)))
    ensures DecodeUnixTime(b).Ok? ==> DecodeUnixTime(b).value == SignedValue(TrimQuotes(b))
  {
    ParseIntAccepts(TrimQuotes(b));
  }

  /** `BaseModel`: the common columns of a stored record. */
  datatype BaseModel = BaseModel(id: string, createdAt: Instant, updatedAt: Instant, deletedAt: Option<Instant>)

  /** `IdentityQuery`: a query by identifier. */
  datatype IdentityQuery = IdentityQuery(id: string)

  /** The reflection of an `IdentityQuery`: one string field `ID` tagged
      `criteria:"eq,_id"`. */
  function IdentityFields(q: IdentityQuery): seq<Field>
  {
    [Field("ID", "eq,_id", Str(q.id), q.id == "")]
  }

  /** An identity query filters on `_id`, or only on `deleted_at` when the
      identifier is empty. */
  lemma IdentityFilter(q: IdentityQuery)
    ensures EntityFilter(QStruct(IdentityFields(q))) ==
      if q.id == "" then Base else Base["_id" := Str(q.id)]
  {
    var fs := IdentityFields(q);
    var f := fs[0];
    assert fs[..0] == [];
    assert FieldsFilter(fs) == ApplyField(Base, f);
    SplitTag();
    var r := ApplyField(Base, f);
    if q.id != "" {
      assert FieldKey(f) == "_id";
      assert r == TagEntry(Base, "eq", "_id", Str(q.id));
      assert r == Base["_id" := Str(q.id)];
    } else {
      assert f.tag[..3] != "nil" by { assert f.tag[..3][0] == 'e'; }
      assert f.tag[..5] != "empty" by { assert f.tag[..5][1] == 'q'; }
      assert r == Base;
    }
    assert "id" !in r;
  }

  /** The tag of `IdentityQuery.ID` splits into its operator and its key. */
  lemma SplitTag()
    ensures Split("eq,_id", ",") == ["eq", "_id"]
  {
    var s := "eq,_id";
    assert s[0] == 'e' && s[1] == 'q' && s[2] == ',' && s[3] == '_' && s[4] == 'i' && s[5] == 'd';
    assert s[2..3] == ",";
    assert s[0..1] != "," by { assert s[0..1][0] == 'e'; }
    assert s[1..2] != "," by { assert s[1..2][0] == 'q'; }
    assert s[3..4] != "," by { assert s[3..4][0] == '_'; }
    assert s[4..5] != "," by { assert s[4..5][0] == 'i'; }
    assert s[5..6] != "," by { assert s[5..6][0] == 'd'; }
    assert IndexFrom(s, ",", 0) == 2;
    assert IndexFrom(s, ",", 3) == -1;
    assert SplitFrom(s, ",", 3) == [s[3..]];
    assert s[0..2] == "eq" && s[3..] == "_id";
  }

  /** `PagingQuery`: a page number and a page size. */
  datatype PagingQuery = PagingQuery(page: int, count: int)

  /** The values a request gets when it names neither. */
  const DefaultPaging: PagingQuery := PagingQuery(0, 20)

  /** `PagingDTO`: the page echoed back, the total and the items (`None`
      is a nil list). */
  datatype PagingDTO<E> = PagingDTO(page: int, count: int, total: int, items: Option<seq<E>>)
}
