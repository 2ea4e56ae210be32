/**
 * Input validation (src/services/validationService.ts): the composer's check on
 * a message text, and the structural check on a message record whose fields
 * may be missing or of the wrong kind at run time.
 */
module Validation {
  import opened Options
  import opened Sequences
  import opened Strings

  /** The longest text the composer accepts. */
  const MAX_CONTENT_LENGTH: nat := 5000

  const EMPTY_CONTENT_ERROR: string := "メッセージを入力してください"
  const TOO_LONG_ERROR: string := "メッセージは5000文字以内で入力してください"

  /** `{ isValid, error? }`. */
  datatype ContentCheck = ContentCheck(isValid: bool, error: Option<string>)

  /**
   * `validateMessageContent`: a blank text is rejected first, then a text
   * longer than 5000 characters; anything else is accepted without an error.
   */
  function ValidateMessageContent(content: string): (r: ContentCheck)
    ensures r.isValid <==> !IsBlank(content) && |content| <= MAX_CONTENT_LENGTH
    ensures r.isValid <==> r.error.None?
    ensures IsBlank(content) ==> r.error == Some(EMPTY_CONTENT_ERROR)
    ensures !IsBlank(content) && |content| > MAX_CONTENT_LENGTH ==> r.error == Some(TOO_LONG_ERROR)
  {
    if content == [] || |Trim(content)| == 0 then ContentCheck(false, Some(EMPTY_CONTENT_ERROR))
    else if |content| > MAX_CONTENT_LENGTH then ContentCheck(false, Some(TOO_LONG_ERROR))
    else ContentCheck(true, None)
  }

  /** Whitespace-only text fails on blankness whatever its length: the blank check comes first. */
  lemma BlankCheckFirst(content: string)
    requires AllWhitespace(content)
    ensures ValidateMessageContent(content) == ContentCheck(false, Some(EMPTY_CONTENT_ERROR))
  {
    BlankIffAllWhitespace(content);
  }

  /** The limit is inclusive: a text of exactly 5000 characters passes when it is not blank. */
  lemma LimitInclusive(content: string)
    requires |content| == MAX_CONTENT_LENGTH && !AllWhitespace(content)
    ensures ValidateMessageContent(content).isValid
  {
    BlankIffAllWhitespace(content);
  }

  /** A timestamp as it may arrive: a valid `Date`, an invalid `Date` (NaN time), or something else. */
  datatype RawTimestamp = DateValue(millis: int) | InvalidDate | NotADate

  /** A boolean field as it may arrive: a boolean, or a value of another kind. */
  datatype RawBool = Bool(b: bool) | NotABool

  /**
   * A message record as `validateMessage` may receive it. Absent string fields
   * are `None`; an empty string is falsy like an absent one.
   */
  datatype RawMessage = RawMessage(
    id: Option<string>,
    content: Option<string>,
    msgType: Option<string>,
    timestamp: RawTimestamp,
    isSender: RawBool)

  const ID_ERROR: string := "Message ID is required"
  const CONTENT_ERROR: string := "Message content is required"
  const TYPE_ERROR: string := "Message type is required"
  const TIMESTAMP_ERROR: string := "Valid timestamp is required"
  const IS_SENDER_ERROR: string := "isSender must be a boolean"

  /** Every error, in the order the checks run. */
  const ALL_ERRORS: seq<string> := [ID_ERROR, CONTENT_ERROR, TYPE_ERROR, TIMESTAMP_ERROR, IS_SENDER_ERROR]

  /** A string field is falsy when it is absent or empty. */
  predicate Falsy(s: Option<string>) {
    s.None? || s.value == []
  }

  predicate IdMissing(m: RawMessage) { Falsy(m.id) }
  predicate ContentMissing(m: RawMessage) { Falsy(m.content) || IsBlank(m.content.value) }
  predicate TypeMissing(m: RawMessage) { Falsy(m.msgType) }
  predicate TimestampInvalid(m: RawMessage) { !m.timestamp.DateValue? }
  predicate IsSenderInvalid(m: RawMessage) { !m.isSender.Bool? }

  /**
   * `validateMessage`: runs the five checks in order, pushing one error for
   * each failed check. The message is valid exactly when no error was pushed.
   */
  method ValidateMessage(m: RawMessage) returns (isValid: bool, errors: seq<string>)
    ensures isValid <==> errors == []
    ensures IsSubseq(errors, ALL_ERRORS)
    ensures ID_ERROR in errors <==> IdMissing(m)
    ensures CONTENT_ERROR in errors <==> ContentMissing(m)
    ensures TYPE_ERROR in errors <==> TypeMissing(m)
    ensures TIMESTAMP_ERROR in errors <==> TimestampInvalid(m)
    ensures IS_SENDER_ERROR in errors <==> IsSenderInvalid(m)
    ensures isValid <==> !IdMissing(m) && !ContentMissing(m) && !TypeMissing(m) && !TimestampInvalid(m) && !IsSenderInvalid(m)
  {
    var c1, c2, c3, c4, c5 := IdMissing(m), ContentMissing(m), TypeMissing(m), TimestampInvalid(m), IsSenderInvalid(m);
    errors := [];
    if c1 {
      errors := errors + [ID_ERROR];
    }
    ghost var e1 := Opt(c1, ID_ERROR);
    assert errors == e1;
    if c2 {
      errors := errors + [CONTENT_ERROR];
    }
    ghost var e2 := e1 + Opt(c2, CONTENT_ERROR);
    assert errors == e2;
    if c3 {
      errors := errors + [TYPE_ERROR];
    }
    ghost var e3 := e2 + Opt(c3, TYPE_ERROR);
    assert errors == e3;
    if c4 {
      errors := errors + [TIMESTAMP_ERROR];
    }
    ghost var e4 := e3 + Opt(c4, TIMESTAMP_ERROR);
    assert errors == e4;
    if c5 {
      errors := errors + [IS_SENDER_ERROR];
    }
    assert errors == e4 + Opt(c5, IS_SENDER_ERROR);
    Concat5(Opt(c1, ID_ERROR), Opt(c2, CONTENT_ERROR), Opt(c3, TYPE_ERROR), Opt(c4, TIMESTAMP_ERROR), Opt(c5, IS_SENDER_ERROR));
    assert errors == Pushed(c1, c2, c3, c4, c5);
    ErrorsInOrder(c1, c2, c3, c4, c5);
    PushedMembers(c1, c2, c3, c4, c5);
    isValid := |errors| == 0;
  }

  /** The error list for a given outcome of the five checks. */
  function Pushed(c1: bool, c2: bool, c3: bool, c4: bool, c5: bool): seq<string> {
    Opt(c1, ID_ERROR) + (Opt(c2, CONTENT_ERROR) + (Opt(c3, TYPE_ERROR) + (Opt(c4, TIMESTAMP_ERROR) + Opt(c5, IS_SENDER_ERROR))))
  }

  /** Five pushes one after another, regrouped from the right. */
  lemma Concat5<T>(a: seq<T>, b: seq<T>, c: seq<T>, d: seq<T>, e: seq<T>)
    ensures a + b + c + d + e == a + (b + (c + (d + e)))
  {
  }

  function Opt<T>(c: bool, e: T): seq<T> {
    if c then [e] else []
  }

  /** Each error is in the list exactly when its check failed, and the list is empty exactly when all passed. */
  lemma PushedMembers(c1: bool, c2: bool, c3: bool, c4: bool, c5: bool)
    ensures ID_ERROR in Pushed(c1, c2, c3, c4, c5) <==> c1
    ensures CONTENT_ERROR in Pushed(c1, c2, c3, c4, c5) <==> c2
    ensures TYPE_ERROR in Pushed(c1, c2, c3, c4, c5) <==> c3
    ensures TIMESTAMP_ERROR in Pushed(c1, c2, c3, c4, c5) <==> c4
    ensures IS_SENDER_ERROR in Pushed(c1, c2, c3, c4, c5) <==> c5
    ensures Pushed(c1, c2, c3, c4, c5) == [] <==> !c1 && !c2 && !c3 && !c4 && !c5
  {
  }

  /** An optional first element keeps a subsequence a subsequence. */
  lemma ConsSubseq<T>(c: bool, x: T, a: seq<T>, b: seq<T>)
    requires IsSubseq(a, b)
    ensures IsSubseq(Opt(c, x) + a, [x] + b)
  {
    assert ([x] + b)[1..] == b;
    if c {
      assert (Opt(c, x) + a)[1..] == a;
    } else {
      assert Opt(c, x) + a == a;
    }
  }

  /** Five optional pushes, in order, form a subsequence of the five values. */
  lemma OptsInOrder<T>(c1: bool, c2: bool, c3: bool, c4: bool, c5: bool, x1: T, x2: T, x3: T, x4: T, x5: T)
    ensures IsSubseq(Opt(c1, x1) + (Opt(c2, x2) + (Opt(c3, x3) + (Opt(c4, x4) + Opt(c5, x5)))),
                     [x1] + ([x2] + ([x3] + ([x4] + [x5]))))
  {
    var e5 := Opt(c5, x5);
    assert IsSubseq(e5, [x5]) by {
      if c5 {
        assert e5[1..] == [] && [x5][1..] == [];
      }
    }
    ConsSubseq(c4, x4, e5, [x5]);
    ConsSubseq(c3, x3, Opt(c4, x4) + e5, [x4] + [x5]);
    ConsSubseq(c2, x2, Opt(c3, x3) + (Opt(c4, x4) + e5), [x3] + ([x4] + [x5]));
    ConsSubseq(c1, x1, Opt(c2, x2) + (Opt(c3, x3) + (Opt(c4, x4) + e5)), [x2] + ([x3] + ([x4] + [x5])));
  }

  /** Whatever the outcome, the pushed errors come in the fixed order, each at most once. */
  lemma ErrorsInOrder(c1: bool, c2: bool, c3: bool, c4: bool, c5: bool)
    ensures IsSubseq(Pushed(c1, c2, c3, c4, c5), ALL_ERRORS)
  {
    OptsInOrder(c1, c2, c3, c4, c5, ID_ERROR, CONTENT_ERROR, TYPE_ERROR, TIMESTAMP_ERROR, IS_SENDER_ERROR);
    assert ALL_ERRORS == [ID_ERROR] + ([CONTENT_ERROR] + ([TYPE_ERROR] + ([TIMESTAMP_ERROR] + [IS_SENDER_ERROR])));
  }
}
