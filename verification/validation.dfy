/**
 * The two request-body validators of the todo API. Each runs a fixed chain
 * of checks over the fields of the body and collects an ordered list of
 * violations; an empty list lets the request through to its handler, any
 * other list turns it away with status 400 and the list as `details`.
 */
module Validation {
  import opened JsValues

  const MAX_TITLE_LENGTH := 100
  const MAX_DESCRIPTION_LENGTH := 500

  /** Fields of a POST /api/todos body that the validator reads. */
  datatype CreateBody = CreateBody(title: Value, description: Value)

  /** Fields of a PUT /api/todos/:id body that the validator reads. */
  datatype UpdateBody = UpdateBody(title: Value, description: Value, completed: Value)

  /** One violation; `Text` is the message the client receives. */
  datatype ValidationError =
    | NothingToUpdate
    | TitleRequired
    | TitleNotString
    | TitleBlank
    | TitleTooLong
    | DescriptionNotString
    | DescriptionTooLong
    | CompletedNotBoolean
  {
    function Text(): string
    {
      match this
      case NothingToUpdate => "至少需要提供一个要更新的字段"
      case TitleRequired => "标题是必填项"
      case TitleNotString => "标题必须是字符串"
      case TitleBlank => "标题不能为空"
      case TitleTooLong => "标题长度不能超过100个字符"
      case DescriptionNotString => "描述必须是字符串"
      case DescriptionTooLong => "描述长度不能超过500个字符"
      case CompletedNotBoolean => "完成状态必须是布尔值"
    }

    /**
     * The position of the check that reports this violation in the chain:
     * the "nothing to update" check, then title, description, completed.
     */
    function Stage(): nat
    {
      match this
      case NothingToUpdate => 0
      case TitleRequired | TitleNotString | TitleBlank | TitleTooLong => 1
      case DescriptionNotString | DescriptionTooLong => 2
      case CompletedNotBoolean => 3
    }
  }

  const VALIDATION_FAILED: string := "输入数据验证失败"

  /**
   * Violations come in chain order, at most one per check: the stages of
   * the list strictly increase.
   */
  ghost predicate InChainOrder(errs: seq<ValidationError>)
  {
    forall i :: 0 < i < |errs| ==> errs[i - 1].Stage() < errs[i].Stage()
  }

  /** The messages one check can push: none or one, all of the given stage. */
  ghost predicate OneCheck(errs: seq<ValidationError>, stage: nat)
  {
    |errs| <= 1 && forall e :: e in errs ==> e.Stage() == stage
  }

  /** Appending the messages of a later check keeps the chain order. */
  lemma ChainAppend(errs: seq<ValidationError>, more: seq<ValidationError>, stage: nat)
    requires InChainOrder(errs) && forall e :: e in errs ==> e.Stage() < stage
    requires OneCheck(more, stage)
    ensures InChainOrder(errs + more) && forall e :: e in errs + more ==> e.Stage() <= stage
  {
    if |more| == 1 && |errs| > 0 {
      assert errs[|errs| - 1] in errs;
    }
  }

  /** The string, blank and length checks on a title. */
  function StringTitleErrors(title: Value): (errs: seq<ValidationError>)
    ensures OneCheck(errs, 1)
  {
    if !title.Str? then [TitleNotString]
    else if |Trim(title.s)| == 0 then [TitleBlank]
    else if |title.s| > MAX_TITLE_LENGTH then [TitleTooLong]
    else []
  }

  /** POST's title check: required, then the string, blank and length checks. */
  function CreateTitleErrors(title: Value): (errs: seq<ValidationError>)
    ensures OneCheck(errs, 1)
  {
    if !Truthy(title) then [TitleRequired] else StringTitleErrors(title)
  }

  /** PUT's title check: nothing for an absent title. */
  function UpdateTitleErrors(title: Value): (errs: seq<ValidationError>)
    ensures OneCheck(errs, 1)
  {
    if title.Absent? then [] else StringTitleErrors(title)
  }

  /** The optional-description checks, shared by both validators. */
  function DescriptionErrors(description: Value): (errs: seq<ValidationError>)
    ensures OneCheck(errs, 2)
  {
    if description.Absent? then []
    else if !description.Str? then [DescriptionNotString]
    else if |description.s| > MAX_DESCRIPTION_LENGTH then [DescriptionTooLong]
    else []
  }

  /** PUT's check that at least one field is present. */
  function NothingErrors(body: UpdateBody): (errs: seq<ValidationError>)
    ensures OneCheck(errs, 0)
  {
    if body.title.Absent? && body.description.Absent? && body.completed.Absent?
    then [NothingToUpdate] else []
  }

  /** PUT's check on `completed`. */
  function CompletedErrors(completed: Value): (errs: seq<ValidationError>)
    ensures OneCheck(errs, 3)
  {
    if !completed.Absent? && !completed.Bool? then [CompletedNotBoolean] else []
  }

  /** validateCreateTodo's list of violations: at most one per check. */
  function ValidateCreate(body: CreateBody): (errs: seq<ValidationError>)
    ensures |errs| <= 2
  {
    CreateTitleErrors(body.title) + DescriptionErrors(body.description)
  }

  /**
   * validateUpdateTodo's list of violations: at most one per check, and
   * "nothing to update" excludes the three field checks.
   */
  function ValidateUpdate(body: UpdateBody): (errs: seq<ValidationError>)
    ensures |errs| <= 3
  {
    NothingErrors(body)
      + UpdateTitleErrors(body.title)
      + DescriptionErrors(body.description)
      + CompletedErrors(body.completed)
  }

  /**
   * POST's list holds at most one title message then at most one
   * description message, and nothing else.
   */
  lemma CreateChain(body: CreateBody)
    ensures |ValidateCreate(body)| <= 2 && InChainOrder(ValidateCreate(body))
    ensures forall e :: e in ValidateCreate(body) <==>
      (e.Stage() == 1 && e in CreateTitleErrors(body.title))
      || (e.Stage() == 2 && e in DescriptionErrors(body.description))
  {
    ChainAppend([], CreateTitleErrors(body.title), 1);
    ChainAppend(CreateTitleErrors(body.title), DescriptionErrors(body.description), 2);
  }

  /**
   * PUT's list holds, in this order, at most one message each from the
   * "nothing to update", title, description and completed checks, and
   * nothing else; it has at most three messages.
   */
  lemma UpdateChain(body: UpdateBody)
    ensures |ValidateUpdate(body)| <= 3 && InChainOrder(ValidateUpdate(body))
    ensures forall e :: e in ValidateUpdate(body) <==>
      (e.Stage() == 0 && e in NothingErrors(body))
      || (e.Stage() == 1 && e in UpdateTitleErrors(body.title))
      || (e.Stage() == 2 && e in DescriptionErrors(body.description))
      || (e.Stage() == 3 && e in CompletedErrors(body.completed))
  {
    var n, t, d, c :=
      NothingErrors(body), UpdateTitleErrors(body.title),
      DescriptionErrors(body.description), CompletedErrors(body.completed);
    ChainAppend([], n, 0);
    ChainAppend(n, t, 1);
    ChainAppend(n + t, d, 2);
    ChainAppend(n + t + d, c, 3);
    if n != [] {
      assert t == d == c == [];
    }
  }

  /** The messages sent back as `details`, in order. */
  function Details(errs: seq<ValidationError>): (d: seq<string>)
    ensures |d| == |errs|
    ensures forall i :: 0 <= i < |errs| ==> d[i] == errs[i].Text()
  {
    if errs == [] then [] else [errs[0].Text()] + Details(errs[1..])
  }

  /** What a validating middleware does: call `next`, or answer 400. */
  datatype Verdict =
    | Next
    | Reject(error: string, details: seq<string>)
  {
    /**
     * The status the validator itself sends. A body that passes gets its
     * status from the handler behind `next()`, so only a rejection has one
     * here.
     */
    function Status(): int
      requires Reject?
    {
      400
    }
  }

  /**
   * The dispatch at the end of either validator: `next` exactly when there
   * is no violation, otherwise 400 with the generic error and one detail
   * per violation, in order.
   */
  function Gate(errs: seq<ValidationError>): (v: Verdict)
    ensures v.Next? <==> errs == []
    ensures v.Reject? ==> v.Status() == 400 && v.error == VALIDATION_FAILED && v.details == Details(errs)
  {
    if |errs| > 0 then Reject(VALIDATION_FAILED, Details(errs)) else Next
  }

  // ---------------------------------------------------------------------
  // Declarative descriptions of an acceptable body

  /** A title both validators accept: a string, not blank, at most 100 units long. */
  ghost predicate GoodTitle(title: Value)
  {
    title.Str? && !AllWhiteSpace(title.s) && |title.s| <= MAX_TITLE_LENGTH
  }

  /** A description both validators accept: absent, or a string of at most 500 units. */
  ghost predicate GoodDescription(description: Value)
  {
    description.Absent? || (description.Str? && |description.s| <= MAX_DESCRIPTION_LENGTH)
  }

  ghost predicate AcceptableCreate(body: CreateBody)
  {
    GoodTitle(body.title) && GoodDescription(body.description)
  }

  ghost predicate AcceptableUpdate(body: UpdateBody)
  {
    && !(body.title.Absent? && body.description.Absent? && body.completed.Absent?)
    && (body.title.Absent? || GoodTitle(body.title))
    && GoodDescription(body.description)
    && (body.completed.Absent? || body.completed.Bool?)
  }

  lemma StringTitleAccepts(title: Value)
    ensures StringTitleErrors(title) == [] <==> GoodTitle(title)
  {
    if title.Str? {
      TrimIsMiddle(title.s);
    }
  }

  /** POST passes validation exactly when its body is acceptable. */
  lemma CreateAcceptsExactly(body: CreateBody)
    ensures ValidateCreate(body) == [] <==> AcceptableCreate(body)
  {
    StringTitleAccepts(body.title);
    if GoodTitle(body.title) {
      assert |body.title.s| > 0;
    }
  }

  /** PUT passes validation exactly when its body is acceptable. */
  lemma UpdateAcceptsExactly(body: UpdateBody)
    ensures ValidateUpdate(body) == [] <==> AcceptableUpdate(body)
  {
    StringTitleAccepts(body.title);
  }

  // ---------------------------------------------------------------------
  // Which message each input draws

  /** The title of a POST draws exactly one message or none, decided in chain order. */
  lemma CreateTitleMessages(body: CreateBody)
    ensures TitleRequired in ValidateCreate(body) <==> !Truthy(body.title)
    ensures TitleNotString in ValidateCreate(body) <==> Truthy(body.title) && !body.title.Str?
    ensures TitleBlank in ValidateCreate(body)
        <==> body.title.Str? && body.title.s != [] && AllWhiteSpace(body.title.s)
    ensures TitleTooLong in ValidateCreate(body)
        <==> body.title.Str? && !AllWhiteSpace(body.title.s) && |body.title.s| > MAX_TITLE_LENGTH
  {
    CreateChain(body);
    if body.title.Str? {
      TrimIsMiddle(body.title.s);
    }
  }

  /** The description rules, shared by POST and PUT. */
  lemma DescriptionMessages(description: Value)
    ensures DescriptionErrors(description) == [] <==> GoodDescription(description)
    ensures DescriptionNotString in DescriptionErrors(description)
        <==> !description.Absent? && !description.Str?
    ensures DescriptionTooLong in DescriptionErrors(description)
        <==> description.Str? && |description.s| > MAX_DESCRIPTION_LENGTH
  {
  }

  /**
   * PUT's "nothing to update" message appears exactly when no field is
   * present, and then it is the only message.
   */
  lemma NothingToUpdateAlone(body: UpdateBody)
    ensures NothingToUpdate in ValidateUpdate(body)
        <==> body.title.Absent? && body.description.Absent? && body.completed.Absent?
    ensures NothingToUpdate in ValidateUpdate(body) ==> ValidateUpdate(body) == [NothingToUpdate]
  {
    UpdateChain(body);
  }

  /** A present `completed` that is not a boolean is reported. */
  lemma CompletedMessage(body: UpdateBody)
    ensures CompletedNotBoolean in ValidateUpdate(body)
        <==> !body.completed.Absent? && !body.completed.Bool?
  {
    UpdateChain(body);
  }

  /** PUT reports nothing about an absent title. */
  lemma UpdateIgnoresAbsentTitle(body: UpdateBody)
    requires body.title.Absent?
    ensures forall e :: e in ValidateUpdate(body) ==> e.Stage() != 1
  {
    UpdateChain(body);
  }

  /**
   * A present title draws under PUT exactly the message of the string,
   * blank and length checks.
   */
  lemma UpdateTitleMessages(body: UpdateBody)
    requires !body.title.Absent?
    ensures forall e: ValidationError :: e.Stage() == 1 ==>
      (e in ValidateUpdate(body) <==> e in StringTitleErrors(body.title))
  {
    UpdateChain(body);
  }

  /** For a truthy title PUT gives the title message POST gives. */
  lemma UpdateTitleLikeCreate(body: UpdateBody)
    requires Truthy(body.title)
    ensures forall e: ValidationError :: e.Stage() == 1 ==>
      (e in ValidateUpdate(body) <==> e in ValidateCreate(CreateBody(body.title, Absent)))
  {
    UpdateTitleMessages(body);
    CreateChain(CreateBody(body.title, Absent));
  }

  /**
   * A present falsy title (null, false, 0, "") that POST calls missing is,
   * under PUT, "blank" when it is the empty string and "not a string"
   * otherwise.
   */
  lemma UpdateFalsyTitle(body: UpdateBody)
    requires !body.title.Absent? && !Truthy(body.title)
    ensures (if body.title.Str? then TitleBlank else TitleNotString) in ValidateUpdate(body)
    ensures TitleRequired !in ValidateUpdate(body)
  {
    UpdateTitleMessages(body);
  }

  /**
   * The title length limit is on the untrimmed string: a title of 100
   * units is accepted, one of 101 is refused even when trimming would bring
   * it under the limit.
   */
  lemma TitleLengthBoundary(s: JsString)
    requires !AllWhiteSpace(s)
    ensures |s| == MAX_TITLE_LENGTH ==> ValidateCreate(CreateBody(Str(s), Absent)) == []
    ensures |s| == MAX_TITLE_LENGTH + 1 ==> ValidateCreate(CreateBody(Str(s), Absent)) == [TitleTooLong]
  {
    TrimIsMiddle(s);
  }

  /** A description of 500 units is accepted, one of 501 is refused. */
  lemma DescriptionLengthBoundary(s: JsString)
    ensures |s| == MAX_DESCRIPTION_LENGTH ==> DescriptionErrors(Str(s)) == []
    ensures |s| == MAX_DESCRIPTION_LENGTH + 1 ==> DescriptionErrors(Str(s)) == [DescriptionTooLong]
  {
  }
}
