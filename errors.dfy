/** The error-code registry: a table from numeric codes to their HTTP
    status and message, with code 9999 reserved for unknown failures, and
    `NewError`, which builds an error from a code and an optional cause. */
module ErrorCodes {
  import opened Values
  import opened Decimal

  /** The reserved code of an unknown failure. */
  const ErrFailed: int := 9999

  const StatusInternalServerError: int := 500

  /** `ErrCoder`: a code, the HTTP status it answers with, and its message. */
  datatype ErrCoder = ErrCoder(code: int, httpCode: int, message: string)

  /** `Error`: a coder together with the error it wraps. */
  datatype Error = Error(coder: ErrCoder, err: GoError)

  /** The entry the registry starts with. */
  const FailedCoder: ErrCoder := ErrCoder(ErrFailed, StatusInternalServerError, "An internal server error occurred")

  const ReservedPanic: string := "code '9999' is reserved by errors as ErrUnknown error code"

  /** The panic message for a code registered twice. */
  function DuplicatePanic(code: int): string
  {
    "code: " + FormatInt(code) + " already exist"
  }

  /** The options `NewError` accepts (`WithErrMessage`, `WithErrHttpCode`). */
  datatype ErrorOption = WithErrMessage(msg: string) | WithErrHttpCode(httpCode: int)

  /** What one option does to the coder it is given. */
  function ApplyErrOption(c: ErrCoder, o: ErrorOption): ErrCoder
  {
    match o
    case WithErrMessage(m) => c.(message := m)
    case WithErrHttpCode(h) => c.(httpCode := h)
  }

  /** The options applied in order. */
  function ApplyErrOptions(c: ErrCoder, opts: seq<ErrorOption>): ErrCoder
  {
    if opts == [] then c
    else ApplyErrOption(ApplyErrOptions(c, opts[..|opts| - 1]), opts[|opts| - 1])
  }

  /** `ParseCoder` on a table: the registered entry, else the 9999 entry (the
      zero coder when even that is missing, as a Go map lookup gives). */
  function Lookup(codes: map<int, ErrCoder>, code: int): ErrCoder
  {
    if code in codes then codes[code]
    else if ErrFailed in codes then codes[ErrFailed]
    else ErrCoder(0, 0, "")
  }

  /** The error `NewError` returns: the looked-up coder whose message is the
      cause's text (the registered message when there is no cause), then the
      options. */
  function NewErrorOf(codes: map<int, ErrCoder>, err: Option<GoError>, code: int, opts: seq<ErrorOption>): Error
  {
    var coder := Lookup(codes, code);
    var e := if err.Some? then err.value else GoError(coder.message);
    Error(ApplyErrOptions(coder.(message := e.text), opts), e)
  }

  /** The process-wide table of codes. */
  class Registry {
    var codes: map<int, ErrCoder>

    /** The reserved entry is there, as registered at start-up. */
    predicate Valid()
      reads this
    {
      ErrFailed in codes && codes[ErrFailed] == FailedCoder
    }

    /** The table as the package's `init` leaves it. */
    constructor ()
      ensures codes == map[ErrFailed := FailedCoder]
      ensures Valid()
    {
      codes := map[ErrFailed := FailedCoder];
    }

    /** `Register`: a panic (returned here, the table untouched) for code
        9999 and for a code already present; otherwise exactly that entry
        is added. */
    method Register(coder: ErrCoder) returns (panic: Option<string>)
      modifies this
      ensures coder.code == ErrFailed ==> panic == Some(ReservedPanic) && codes == old(codes)
      ensures coder.code != ErrFailed && coder.code in old(codes) ==>
        panic == Some(DuplicatePanic(coder.code)) && codes == old(codes)
      ensures coder.code != ErrFailed && coder.code !in old(codes) ==>
        panic.None? && codes == old(codes)[coder.code := coder]
      ensures old(Valid()) ==> Valid()
    {
      if coder.code == ErrFailed {
        return Some(ReservedPanic);
      }
      if coder.code in codes {
        return Some(DuplicatePanic(coder.code));
      }
      codes := codes[coder.code := coder];
      return None;
    }

    /** `ParseCoder`: the registered entry of a known code, the 9999 entry
        for any other. */
    function ParseCoder(code: int): (c: ErrCoder)
      reads this
      ensures code in codes ==> c == codes[code]
      ensures code !in codes && Valid() ==> c == FailedCoder
    {
      Lookup(codes, code)
    }

    /** `NewError`: works on a copy of the coder, so the table is not
        changed; the options run in order after the message is set. */
    method NewError(err: Option<GoError>, code: int, opts: seq<ErrorOption>) returns (e: Error)
      ensures e == NewErrorOf(codes, err, code, opts)
    {
      var coder := ParseCoder(code);
      var cause := if err.Some? then err.value else GoError(coder.message);
      coder := coder.(message := cause.text);
      ghost var start := coder;
      for i := 0 to |opts|
        invariant coder == ApplyErrOptions(start, opts[..i])
      {
        assert opts[..i + 1][..i] == opts[..i];
        match opts[i]
        case WithErrMessage(m) => coder := coder.(message := m);
        case WithErrHttpCode(h) => coder := coder.(httpCode := h);
      }
      assert opts[..|opts|] == opts;
      e := Error(coder, cause);
    }
  }

  /** Options never change the code. */
  lemma {:induction false} OptionsKeepCode(c: ErrCoder, opts: seq<ErrorOption>)
    ensures ApplyErrOptions(c, opts).code == c.code
    decreases |opts|
  {
    if opts != [] {
      OptionsKeepCode(c, opts[..|opts| - 1]);
    }
  }

  /** The last message option decides the message. */
  lemma {:induction false} LastMessageWins(c: ErrCoder, opts: seq<ErrorOption>, i: nat)
    requires i < |opts| && opts[i].WithErrMessage?
    requires forall l :: i < l < |opts| ==> !opts[l].WithErrMessage?
    ensures ApplyErrOptions(c, opts).message == opts[i].msg
    decreases |opts|
  {
    if i < |opts| - 1 {
      LastMessageWins(c, opts[..|opts| - 1], i);
    }
  }

  /** Without a message option the message is the one given. */
  lemma {:induction false} NoMessageOptionKeeps(c: ErrCoder, opts: seq<ErrorOption>)
    requires forall l :: 0 <= l < |opts| ==> !opts[l].WithErrMessage?
    ensures ApplyErrOptions(c, opts).message == c.message
    decreases |opts|
  {
    if opts != [] {
      NoMessageOptionKeeps(c, opts[..|opts| - 1]);
    }
  }

  /** The last status option decides the HTTP status. */
  lemma {:induction false} LastHttpCodeWins(c: ErrCoder, opts: seq<ErrorOption>, i: nat)
    requires i < |opts| && opts[i].WithErrHttpCode?
    requires forall l :: i < l < |opts| ==> !opts[l].WithErrHttpCode?
    ensures ApplyErrOptions(c, opts).httpCode == opts[i].httpCode
    decreases |opts|
  {
    if i < |opts| - 1 {
      LastHttpCodeWins(c, opts[..|opts| - 1], i);
    }
  }

  /** Without a status option the status is the one given. */
  lemma {:induction false} NoHttpCodeOptionKeeps(c: ErrCoder, opts: seq<ErrorOption>)
    requires forall l :: 0 <= l < |opts| ==> !opts[l].WithErrHttpCode?
    ensures ApplyErrOptions(c, opts).httpCode == c.httpCode
    decreases |opts|
  {
    if opts != [] {
      NoHttpCodeOptionKeeps(c, opts[..|opts| - 1]);
    }
  }

  /** `NewError` keeps the looked-up code; without options, a cause's text
      becomes the message, and with no cause the registered message is used
      and wrapped as the cause; the status is the registered one. */
  lemma NewErrorFields(codes: map<int, ErrCoder>, err: Option<GoError>, code: int, opts: seq<ErrorOption>)
    ensures NewErrorOf(codes, err, code, opts).coder.code == Lookup(codes, code).code
    ensures NewErrorOf(codes, err, code, opts).err ==
      if err.Some? then err.value else GoError(Lookup(codes, code).message)
    ensures opts == [] ==>
      NewErrorOf(codes, err, code, opts).coder == Lookup(codes, code).(message := NewErrorOf(codes, err, code, opts).err.text)
    ensures (forall l :: 0 <= l < |opts| ==> !opts[l].WithErrMessage?) ==>
      NewErrorOf(codes, err, code, opts).coder.message == (if err.Some? then err.value.text else Lookup(codes, code).message)
  {
    var coder := Lookup(codes, code);
    var e := if err.Some? then err.value else GoError(coder.message);
    OptionsKeepCode(coder.(message := e.text), opts);
    if forall l :: 0 <= l < |opts| ==> !opts[l].WithErrMessage? {
      NoMessageOptionKeeps(coder.(message := e.text), opts);
    }
  }
}
