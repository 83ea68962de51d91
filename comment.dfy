/** The Comment model: its validations, its moderation state
    (`approved_at`), its spam flag, and the save sequence that runs the
    validations, the before-create callbacks (auto-approval, then the
    optional spam verdict), the insert, and the after-save counter cache
    update. The database is the in-memory CommentTable.CommentStore,
    Akismet is a Spam.SpamContext, and the clock is a parameter. */
module Comments {
  import opened Values
  import opened CommentTable
  import Utils
  import opened HasComments
  import opened Spam

  // ===================================================================
  // Validation
  // ===================================================================

  /** The attribute an error is recorded on; Base is `errors.add_to_base`. */
  datatype Attribute = Body | Name | Email | UserId | Url | Base

  /** Rails' error kinds, and the base messages of the owner checks. */
  datatype Message = CantBeBlank | TooShort(minimum: nat) | TooLong(maximum: nat) | Invalid | BaseMessage(text: string)

  /** The errors object of a record: the messages on each attribute. */
  datatype Errors = Errors(
    body: seq<Message>,
    name: seq<Message>,
    email: seq<Message>,
    userId: seq<Message>,
    url: seq<Message>,
    base: seq<Message>)
  {
    /** `errors.on(attribute)` */
    function On(attr: Attribute): seq<Message> {
      match attr
      case Body => body
      case Name => name
      case Email => email
      case UserId => userId
      case Url => url
      case Base => base
    }

    /** `errors.empty?` */
    predicate IsEmpty() {
      body == [] && name == [] && email == [] && userId == [] && url == [] && base == []
    }
  }

  const NoErrors: Errors := Errors([], [], [], [], [], [])

  /** The attributes a commenter supplies. */
  datatype Attributes = Attributes(
    name: Option<string>,
    email: Option<string>,
    url: Option<string>,
    body: Option<string>,
    userId: Option<int>)

  const NameMinimum: nat := 3
  const NameMaximum: nat := 200
  const NotOpenMessage: string := "You cannot comment on this object."
  const NotAuthorisedMessage: string := "You are not allowed to comment on this object."

  /** registered_user?: a user id is set. */
  predicate IsRegistered(a: Attributes) {
    a.userId.Some?
  }

  /** public_user?: both name and e-mail are set (not nil); empty strings
      count as set. */
  predicate IsPublic(a: Attributes) {
    a.name.Some? && a.email.Some?
  }

  /** The messages of one validation: its message when it fails. */
  function Flag(fails: bool, m: Message): seq<Message> {
    if fails then [m] else []
  }

  /** The name's validations: presence unless registered, then the
      length (a blank name is skipped). */
  function NameErrors(a: Attributes): seq<Message> {
    Flag(!IsRegistered(a) && Blank(a.name), CantBeBlank)
      + Flag(!Blank(a.name) && |a.name.value| < NameMinimum, TooShort(NameMinimum))
      + Flag(!Blank(a.name) && NameMinimum <= |a.name.value| && |a.name.value| > NameMaximum, TooLong(NameMaximum))
  }

  /** The e-mail's validations: presence unless registered, then the
      format (a blank value is skipped). */
  function EmailErrors(a: Attributes): seq<Message> {
    Flag(!IsRegistered(a) && Blank(a.email), CantBeBlank)
      + Flag(!Blank(a.email) && !Utils.IsEmail(a.email.value), Invalid)
  }

  /** commentable_is_open, then authorised_only, given what the owner
      answered. */
  function BaseErrors(open: RValue, authorised: RValue): seq<Message> {
    Flag(!Truthy(open), BaseMessage(NotOpenMessage))
      + Flag(!Truthy(authorised), BaseMessage(NotAuthorisedMessage))
  }

  /** What `valid?` records, attribute by attribute, in the order each
      attribute's validations are declared: presence (body; name and
      e-mail unless registered; user id unless public), then the name
      length, then the e-mail and url formats; the base collects the
      owner checks. */
  function ValidationErrors(a: Attributes, open: RValue, authorised: RValue): Errors {
    Errors(
      Flag(Blank(a.body), CantBeBlank),
      NameErrors(a),
      EmailErrors(a),
      Flag(!IsPublic(a) && a.userId.None?, CantBeBlank),
      Flag(!Blank(a.url) && !Utils.IsUrl(a.url.value), Invalid),
      BaseErrors(open, authorised))
  }

  /** What a comment needs to be valid, stated condition by condition. */
  predicate Acceptable(a: Attributes, open: RValue, authorised: RValue) {
    && !Blank(a.body)
    && (IsRegistered(a) || (!Blank(a.name) && !Blank(a.email)))
    && (Blank(a.name) || NameMinimum <= |a.name.value| <= NameMaximum)
    && (Blank(a.email) || Utils.IsEmail(a.email.value))
    && (Blank(a.url) || Utils.IsUrl(a.url.value))
    && Truthy(open)
    && Truthy(authorised)
  }

  /** A comment passes validation exactly when it meets every condition. */
  lemma ValidExactlyWhenAcceptable(a: Attributes, open: RValue, authorised: RValue)
    ensures ValidationErrors(a, open, authorised).IsEmpty() <==> Acceptable(a, open, authorised)
  {
  }

  /** The name carries at most one message: "can't be blank" when it is
      blank and no user id is set, "too short" or "too long" when it is
      not blank and its length is outside 3 to 200. */
  lemma NameMessages(a: Attributes, open: RValue, authorised: RValue)
    ensures ValidationErrors(a, open, authorised).On(Name) ==
      (if Blank(a.name) then (if IsRegistered(a) then [] else [CantBeBlank])
       else if |a.name.value| < NameMinimum then [TooShort(NameMinimum)]
       else if |a.name.value| > NameMaximum then [TooLong(NameMaximum)]
       else [])
  {
  }

  /** The e-mail carries at most one message: "can't be blank" when it is
      blank and no user id is set, "is invalid" when it is not blank and
      not an address. */
  lemma EmailMessages(a: Attributes, open: RValue, authorised: RValue)
    ensures ValidationErrors(a, open, authorised).On(Email) ==
      (if Blank(a.email) then (if IsRegistered(a) then [] else [CantBeBlank])
       else if Utils.IsEmail(a.email.value) then [] else [Invalid])
  {
  }

  /** The body is always required; the user id is required exactly when
      neither a user id nor both name and e-mail are given; a non-blank
      url must be well formed. */
  lemma SingleMessages(a: Attributes, open: RValue, authorised: RValue)
    ensures var e := ValidationErrors(a, open, authorised);
      && e.On(Body) == (if Blank(a.body) then [CantBeBlank] else [])
      && e.On(UserId) == (if IsPublic(a) || IsRegistered(a) then [] else [CantBeBlank])
      && e.On(Url) == (if Blank(a.url) || Utils.IsUrl(a.url.value) then [] else [Invalid])
  {
  }

  /** The base holds the "cannot comment" message exactly when the owner
      is closed, and the "not allowed" message exactly when the user is
      not authorised; nothing else. */
  lemma BaseMessages(a: Attributes, open: RValue, authorised: RValue)
    ensures var base := ValidationErrors(a, open, authorised).On(Base);
      && (BaseMessage(NotOpenMessage) in base <==> !Truthy(open))
      && (BaseMessage(NotAuthorisedMessage) in base <==> !Truthy(authorised))
      && (forall m :: m in base ==> m == BaseMessage(NotOpenMessage) || m == BaseMessage(NotAuthorisedMessage))
  {
  }

  /** No attribute but the base ever carries two messages. */
  lemma OneMessagePerAttribute(a: Attributes, open: RValue, authorised: RValue, attr: Attribute)
    requires attr != Base
    ensures |ValidationErrors(a, open, authorised).On(attr)| <= 1
  {
  }
  // ===================================================================
  // Identity and auto-approval
  // ===================================================================

  /** user_attributes: the user id of a registered user, else name and
      e-mail of a public user, else nil. */
  function Identify(a: Attributes): (who: Option<Identity>)
    ensures IsRegistered(a) ==> who == Some(RegisteredUser(a.userId.value))
    ensures !IsRegistered(a) && IsPublic(a) ==> who == Some(PublicUser(a.name.value, a.email.value))
    ensures who.None? <==> !IsRegistered(a) && !IsPublic(a)
  {
    if a.userId.Some? then Some(RegisteredUser(a.userId.value))
    else if a.name.Some? && a.email.Some? then Some(PublicUser(a.name.value, a.email.value))
    else None
  }

  /** Every comment that passes validation has an identity. */
  lemma ValidCommentHasIdentity(a: Attributes, open: RValue, authorised: RValue)
    requires ValidationErrors(a, open, authorised).IsEmpty()
    ensures Identify(a).Some?
  {
  }

  /** The row stored for a comment. */
  function RowOf(a: Attributes, ownerType: string, ownerId: int, approvedAt: Option<Time>, spam: bool): Row {
    Row(a.name, a.email, a.url, a.body, a.userId, ownerType, ownerId, approvedAt, spam)
  }

  /** The auto_approve callback's decision: approve when the owner's
      require_approval is exactly true, or is :auto and a comment by the
      same commenter is already stored (for any owner, approved or not). */
  predicate AutoApproves(requireApproval: RValue, rows: seq<Row>, a: Attributes) {
    requireApproval == RBool(true)
    || (requireApproval == RSymbol("auto") && ExistsWithIdentity(rows, Identify(a)))
  }

  /** A repeat commenter is auto-approved: once a comment is stored, any
      later comment by the same commenter on an :auto owner is approved
      on create, whatever was stored in between. */
  lemma RepeatCommenterApproved(rows: seq<Row>, first: Attributes, ownerType: string, ownerId: int,
                                approvedAt: Option<Time>, spam: bool, more: seq<Row>, later: Attributes)
    requires Identify(first).Some? && Identify(later) == Identify(first)
    ensures AutoApproves(RSymbol("auto"), rows + [RowOf(first, ownerType, ownerId, approvedAt, spam)] + more, later)
  {
    var r := RowOf(first, ownerType, ownerId, approvedAt, spam);
    assert HasIdentity(r, Identify(first).value);
    ExistsAfterInsert(rows, r, Identify(first).value);
    ExistsMonotone(rows + [r], more, Identify(later));
  }

  /** A first comment is auto-approved only when the owner asks for it
      outright: with nothing stored, :auto leaves it pending. */
  lemma FirstCommentPending(a: Attributes, requireApproval: RValue)
    ensures AutoApproves(requireApproval, [], a) <==> requireApproval == RBool(true)
  {
  }

  /** `approve`'s effect on approved_at: stamped with the time unless
      already set. */
  function Stamped(approvedAt: Option<Time>, now: Time): (r: Option<Time>)
    ensures r.Some?
    ensures approvedAt.Some? ==> r == approvedAt
  {
    if approvedAt.None? then Some(now) else approvedAt
  }

  /** How a bang method reports the result of `save`. */
  function Raised(r: Result<bool>): (outcome: Outcome)
    ensures outcome == Pass <==> r == Ok(true)
    ensures r == Ok(false) ==> outcome == Fail(RecordInvalid)
    ensures r.Err? ==> outcome == Fail(r.error)
  {
    match r
    case Ok(stored) => if stored then Pass else Fail(RecordInvalid)
    case Err(e) => Fail(e)
  }

  /** What a save reads of the comment, the table, Akismet and the owner
      when it begins. */
  datatype SaveStart = SaveStart(
    attrs: Attributes,
    approvedAt: Option<Time>,
    spam: bool,
    id: Option<nat>,
    savedApprovedAt: Option<Time>,
    rows: seq<Row>,
    sent: seq<Submission>,
    count: Option<nat>)

  // ===================================================================
  // The Comment object
  // ===================================================================

  class Comment {
    var name: Option<string>
    var email: Option<string>
    var url: Option<string>
    var body: Option<string>
    var userId: Option<int>
    var approvedAt: Option<Time>
    var spam: bool
    /** The row this comment is stored in; None for a new record. */
    var id: Option<nat>
    /** approved_at as last stored, against which approved_at_changed? compares. */
    var savedApprovedAt: Option<Time>
    var errors: Errors
    const commentable: Commentable
    const store: CommentStore
    const akismet: SpamContext

    /** A stored comment's row exists. */
    ghost predicate Valid()
      reads this`id, store
    {
      id.Some? ==> id.value < |store.rows|
    }

    /** Comment.new, with the owner, the table and Akismet attached. A
      new comment is pending and is not spam. */
    constructor (name: Option<string>, email: Option<string>, url: Option<string>, body: Option<string>,
                 userId: Option<int>, commentable: Commentable, store: CommentStore, akismet: SpamContext)
      ensures Valid()
      ensures Attrs() == Attributes(name, email, url, body, userId)
      ensures approvedAt == None && !spam && id == None && savedApprovedAt == None && errors == NoErrors
      ensures this.commentable == commentable && this.store == store && this.akismet == akismet
    {
      this.name, this.email, this.url, this.body, this.userId := name, email, url, body, userId;
      approvedAt, spam, id, savedApprovedAt, errors := None, false, None, None, NoErrors;
      this.commentable, this.store, this.akismet := commentable, store, akismet;
    }

    function Attrs(): Attributes
      reads this`name, this`email, this`url, this`body, this`userId
    {
      Attributes(name, email, url, body, userId)
    }

    /** approved? */
    predicate IsApproved()
      reads this`approvedAt
    {
      approvedAt.Some?
    }

    /** The errors `valid?` would record now. */
    function CurrentErrors(): Errors
      reads this`name, this`email, this`url, this`body, this`userId, commentable.klass
    {
      ValidationErrors(Attrs(), commentable.OpenForComments(),
                       commentable.AuthorisedForComments(IntValue(userId)))
    }

    /** The row this comment writes. */
    function Snapshot(): Row
      reads this`name, this`email, this`url, this`body, this`userId, this`approvedAt, this`spam
    {
      RowOf(Attrs(), commentable.klass.name, commentable.id, approvedAt, spam)
    }

    /** The owner's check_spam option. */
    predicate SpamChecked()
      reads commentable.klass
    {
      Truthy(Lookup(commentable.klass.options, "check_spam"))
    }

    /** to_akismet: the comment's fields merged with Comment.request. */
    function ToAkismet(): (r: Result<Payload>)
      reads this`name, this`email, this`url, this`body, akismet`request
      ensures akismet.request.None? <==> r.Err?
    {
      match akismet.Request()
      case Err(e) => Err(e)
      case Ok(req) => Ok(Merge(CommentFields(TextValue(name), TextValue(email), TextValue(url), TextValue(body)), req))
    }

    /** approve: stamp approved_at with the time, unless already set. */
    method Approve(now: Time)
      modifies this`approvedAt
      ensures approvedAt == Stamped(old(approvedAt), now)
    {
      if approvedAt.None? {
        approvedAt := Some(now);
      }
    }

    /** unapprove */
    method Unapprove()
      modifies this`approvedAt
      ensures approvedAt == None
    {
      approvedAt := None;
    }

    /** approved=: '1' approves, '0' unapproves, anything else is ignored. */
    method SetApproved(v: RValue, now: Time)
      modifies this`approvedAt
      ensures v == RStr("1") ==> approvedAt == Stamped(old(approvedAt), now)
      ensures v == RStr("0") ==> approvedAt == None
      ensures v != RStr("1") && v != RStr("0") ==> approvedAt == old(approvedAt)
    {
      if v == RStr("1") {
        Approve(now);
      } else if v == RStr("0") {
        Unapprove();
      }
    }

    /** valid? */
    method Validate() returns (valid: bool)
      modifies this`errors
      ensures errors == CurrentErrors()
      ensures valid <==> errors.IsEmpty()
    {
      errors := CurrentErrors();
      valid := errors.IsEmpty();
    }

    /** spam_according_to_akismet?: Akismet's verdict on the payload. */
    method SpamAccordingToAkismet() returns (r: Result<bool>)
      ensures ToAkismet().Err? ==> r == Err(ToAkismet().error)
      ensures ToAkismet().Ok? ==> r == Ok(akismet.judge(ToAkismet().value))
    {
      var payload := ToAkismet();
      if payload.Err? {
        r := Err(payload.error);
      } else {
        r := Ok(akismet.judge(payload.value));
      }
    }

    /** mark_as_spam: report the comment as spam; the flag is untouched. */
    method MarkAsSpam() returns (outcome: Outcome)
      modifies akismet`submissions
      ensures ToAkismet().Err? ==> outcome == Fail(ToAkismet().error) && akismet.submissions == old(akismet.submissions)
      ensures ToAkismet().Ok? ==> outcome == Pass && akismet.submissions == old(akismet.submissions) + [SpamSubmission(ToAkismet().value)]
    {
      var payload := ToAkismet();
      if payload.Err? {
        outcome := Fail(payload.error);
      } else {
        akismet.submissions := akismet.submissions + [SpamSubmission(payload.value)];
        outcome := Pass;
      }
    }

    /** mark_as_ham: report the comment as ham; the flag is untouched. */
    method MarkAsHam() returns (outcome: Outcome)
      modifies akismet`submissions
      ensures ToAkismet().Err? ==> outcome == Fail(ToAkismet().error) && akismet.submissions == old(akismet.submissions)
      ensures ToAkismet().Ok? ==> outcome == Pass && akismet.submissions == old(akismet.submissions) + [HamSubmission(ToAkismet().value)]
    {
      var payload := ToAkismet();
      if payload.Err? {
        outcome := Fail(payload.error);
      } else {
        akismet.submissions := akismet.submissions + [HamSubmission(payload.value)];
        outcome := Pass;
      }
    }

    /** spam=: only a real transition writes the flag, and each one sends
      exactly one report. The NoMethodError raised when no request is
      set is a NameError, which `spam=` rescues: the flag is written and
      nothing is sent. */
    method SetSpam(v: RValue)
      modifies this`spam, akismet`submissions
      ensures spam == SpamAfter(old(spam), v)
      ensures akismet.submissions == old(akismet.submissions) + ReportFor(SpamTransition(old(spam), v), ToAkismet())
    {
      var t := SpamTransition(spam, v);
      if t.Some? {
        spam := t.value;
        var outcome;
        if t.value {
          outcome := MarkAsSpam();
        } else {
          outcome := MarkAsHam();
        }
      }
    }

    /** The state a save starts from, as the save sees it. */
    function Start(): SaveStart
      reads this`name, this`email, this`url, this`body, this`userId, this`approvedAt, this`spam, this`id, this`savedApprovedAt,
            store`rows, akismet`submissions, commentable`approvedCommentsCount
    {
      SaveStart(Attrs(), approvedAt, spam, id, savedApprovedAt, store.rows, akismet.submissions,
                commentable.approvedCommentsCount)
    }

    /** Nothing was stored, flagged or reported since b. */
    predicate NothingStored(b: SaveStart)
      reads this`spam, this`id, this`savedApprovedAt, store`rows, akismet`submissions,
            commentable`approvedCommentsCount
    {
      && spam == b.spam && id == b.id && savedApprovedAt == b.savedApprovedAt
      && store.rows == b.rows && akismet.submissions == b.sent
      && commentable.approvedCommentsCount == b.count
    }

    /** after_save: the owner's counter is recomputed exactly when
      approved_at differs from its stored value, which then catches up. */
    predicate CounterSaved(b: SaveStart)
      reads this`approvedAt, this`savedApprovedAt, store`rows, commentable`approvedCommentsCount,
            commentable.klass
    {
      && savedApprovedAt == approvedAt
      && commentable.approvedCommentsCount ==
           if approvedAt != b.savedApprovedAt then Some(ApprovedCount(store.rows, commentable.klass.name, commentable.id))
           else b.count
    }

    /** Saving a stored comment rewrites its row. */
    predicate Updated(b: SaveStart)
      reads this`name, this`email, this`url, this`body, this`userId, this`approvedAt, this`spam, this`id, this`savedApprovedAt,
            store`rows, akismet`submissions, commentable`approvedCommentsCount, commentable.klass
    {
      && b.id.Some? && b.id.value < |b.rows|
      && approvedAt == b.approvedAt && spam == b.spam && id == b.id
      && store.rows == b.rows[b.id.value := Snapshot()]
      && akismet.submissions == b.sent
      && CounterSaved(b)
    }

    /** The auto_approve callback's effect, given the table at the start. */
    predicate AutoApprovalApplied(b: SaveStart, now: Time)
      reads this`approvedAt, commentable.klass
    {
      approvedAt ==
        if AutoApproves(commentable.AutoApproveComments(), b.rows, b.attrs) then Stamped(b.approvedAt, now)
        else b.approvedAt
    }

    /** The no_spam callback's effect when the payload could be built:
      Akismet's verdict assigned through `spam=` when the owner checks
      spam, nothing otherwise. */
    predicate SpamJudged(b: SaveStart)
      reads this`name, this`email, this`url, this`body, this`spam, akismet`submissions, akismet`request,
            commentable.klass
    {
      if SpamChecked() then
        var payload := ToAkismet();
        payload.Ok? &&
        var verdict := RBool(akismet.judge(payload.value));
        && spam == SpamAfter(b.spam, verdict)
        && akismet.submissions == b.sent + ReportFor(SpamTransition(b.spam, verdict), payload)
      else
        spam == b.spam && akismet.submissions == b.sent
    }

    /** The insert and the after_save callback: the new row goes last. */
    predicate Inserted(b: SaveStart)
      reads this`name, this`email, this`url, this`body, this`userId, this`approvedAt, this`spam, this`id,
            this`savedApprovedAt, store`rows, commentable`approvedCommentsCount, commentable.klass
    {
      && id == Some(|b.rows|)
      && store.rows == b.rows + [Snapshot()]
      && CounterSaved(b)
    }

    /** Saving a new comment: auto-approval, then (if the owner checks
      spam) Akismet's verdict assigned through `spam=`, then the insert.
      Without a request the verdict raises before anything is stored,
      and the approval stays in memory only. */
    predicate Created(b: SaveStart, now: Time, r: Result<bool>)
      reads this`name, this`email, this`url, this`body, this`userId, this`approvedAt, this`spam, this`id,
            this`savedApprovedAt, store`rows, akismet`submissions, akismet`request,
            commentable`approvedCommentsCount, commentable.klass
    {
      && AutoApprovalApplied(b, now)
      && if SpamChecked() && ToAkismet().Err? then
           r == Err(ToAkismet().error) && NothingStored(b)
         else
           r == Ok(true) && SpamJudged(b) && Inserted(b)
    }

    /** What `save` did, starting from b. */
    predicate Saved(b: SaveStart, now: Time, r: Result<bool>)
      reads this, store`rows, akismet`submissions, akismet`request, commentable`approvedCommentsCount,
            commentable.klass
    {
      && Attrs() == b.attrs
      && errors == CurrentErrors()
      && if !CurrentErrors().IsEmpty() then Rejected(b, r) else Persisted(b, now, r)
    }

    /** An invalid comment is not saved: save answers false, and nothing
      is approved, flagged, stored or reported. */
    predicate Rejected(b: SaveStart, r: Result<bool>)
      reads this`approvedAt, this`spam, this`id, this`savedApprovedAt, store`rows, akismet`submissions,
            commentable`approvedCommentsCount
    {
      r == Ok(false) && approvedAt == b.approvedAt && NothingStored(b)
    }

    /** What the create or the update branch did, starting from b. */
    predicate Persisted(b: SaveStart, now: Time, r: Result<bool>)
      reads this`name, this`email, this`url, this`body, this`userId, this`approvedAt, this`spam, this`id,
            this`savedApprovedAt, store`rows, akismet`submissions, akismet`request,
            commentable`approvedCommentsCount, commentable.klass
    {
      if b.id.Some? then r == Ok(true) && Updated(b) else Created(b, now, r)
    }

    /** update_counter_cache, and the dirty-tracking reset after a save. */
    method AfterSave()
      modifies this`savedApprovedAt, commentable`approvedCommentsCount
      ensures CounterSaved(old(Start()))
    {
      if approvedAt != savedApprovedAt {
        commentable.RecalculateApprovedCommentsCount(store);
      }
      savedApprovedAt := approvedAt;
    }

    /** The create branch of `save`. */
    method Create(now: Time) returns (r: Result<bool>)
      requires id.None?
      modifies this`approvedAt, this`spam, this`id, this`savedApprovedAt, store, akismet`submissions,
               commentable`approvedCommentsCount
      ensures Valid()
      ensures Created(old(Start()), now, r)
    {
      ghost var b := Start();
      // first before-create callback: auto-approval
      ApproveOnCreate(now);
      // second before-create callback: the spam verdict, when the owner checks spam
      var judged := JudgeSpam(b);
      if judged.Fail? {
        return Err(judged.error);
      }
      Insert(b);
      r := Ok(true);
    }

    /** The insert of a new comment, and the after_save callback. */
    method Insert(ghost b: SaveStart)
      requires b.rows == store.rows && b.savedApprovedAt == savedApprovedAt && b.count == commentable.approvedCommentsCount
      modifies this`id, this`savedApprovedAt, store, commentable`approvedCommentsCount
      ensures Valid()
      ensures Inserted(b)
    {
      id := Some(|store.rows|);
      store.rows := store.rows + [Snapshot()];
      AfterSave();
    }

    /** The no_spam callback when the owner checks spam: Akismet's
      verdict, assigned through `spam=`; it never stops the save, but a
      missing request raises before anything changes. */
    method JudgeSpam(ghost b: SaveStart) returns (outcome: Outcome)
      requires b.spam == spam && b.sent == akismet.submissions
      modifies this`spam, akismet`submissions
      ensures outcome.Fail? <==> SpamChecked() && ToAkismet().Err?
      ensures outcome.Fail? ==> outcome.error == ToAkismet().error && spam == b.spam && akismet.submissions == b.sent
      ensures outcome.Pass? ==> SpamJudged(b)
    {
      outcome := Pass;
      if SpamChecked() {
        outcome := NoSpam();
      }
    }

    /** no_spam: Akismet's verdict, assigned through `spam=`. */
    method NoSpam() returns (outcome: Outcome)
      modifies this`spam, akismet`submissions
      ensures ToAkismet().Err? ==>
        outcome == Fail(ToAkismet().error) && spam == old(spam) && akismet.submissions == old(akismet.submissions)
      ensures ToAkismet().Ok? ==>
        var verdict := RBool(akismet.judge(ToAkismet().value));
        && outcome == Pass
        && spam == SpamAfter(old(spam), verdict)
        && akismet.submissions == old(akismet.submissions) + ReportFor(SpamTransition(old(spam), verdict), ToAkismet())
    {
      var verdict := SpamAccordingToAkismet();
      if verdict.Err? {
        return Fail(verdict.error);
      }
      SetSpam(RBool(verdict.value));
      outcome := Pass;
    }

    /** The auto_approve callback. */
    method ApproveOnCreate(now: Time)
      modifies this`approvedAt
      ensures AutoApprovalApplied(old(Start()), now)
    {
      if AutoApproves(commentable.AutoApproveComments(), store.rows, Attrs()) {
        Approve(now);
      }
    }

    /** The update branch of `save`. */
    method Update()
      requires Valid() && id.Some?
      modifies store, this`savedApprovedAt, commentable`approvedCommentsCount
      ensures Valid()
      ensures Updated(old(Start()))
    {
      store.rows := store.rows[id.value := Snapshot()];
      AfterSave();
    }

    /** save: Ok(true) when stored, Ok(false) when invalid (with the
      errors recorded), Err when an exception escaped a callback. */
    method Save(now: Time) returns (r: Result<bool>)
      requires Valid()
      modifies this`errors, this`approvedAt, this`spam, this`id, this`savedApprovedAt, store,
               akismet`submissions, commentable`approvedCommentsCount
      ensures Valid()
      ensures Saved(old(Start()), now, r)
    {
      ghost var b := Start();
      var valid := Validate();
      if !valid {
        assert Rejected(b, Ok(false));
        return Ok(false);
      }
      r := Persist(now);
    }

    /** The create or the update branch of `save`. */
    method Persist(now: Time) returns (r: Result<bool>)
      requires Valid()
      modifies this`approvedAt, this`spam, this`id, this`savedApprovedAt, store, akismet`submissions,
               commentable`approvedCommentsCount
      ensures Valid()
      ensures Persisted(old(Start()), now, r)
    {
      if id.None? {
        r := Create(now);
      } else {
        Update();
        r := Ok(true);
      }
    }

    /** save!: as save, with an invalid comment raising RecordInvalid. */
    method SaveBang(now: Time) returns (outcome: Outcome, ghost r: Result<bool>)
      requires Valid()
      modifies this`errors, this`approvedAt, this`spam, this`id, this`savedApprovedAt, store,
               akismet`submissions, commentable`approvedCommentsCount
      ensures Valid()
      ensures Saved(old(Start()), now, r)
      ensures outcome == Raised(r)
    {
      var saved := Save(now);
      outcome, r := Raised(saved), saved;
    }

    /** approve!: approve, then save!. */
    method ApproveBang(now: Time) returns (outcome: Outcome, ghost r: Result<bool>)
      requires Valid()
      modifies this`errors, this`approvedAt, this`spam, this`id, this`savedApprovedAt, store,
               akismet`submissions, commentable`approvedCommentsCount
      ensures Valid()
      ensures Saved(old(Start()).(approvedAt := Stamped(old(approvedAt), now)), now, r)
      ensures outcome == Raised(r)
    {
      Approve(now);
      outcome, r := SaveBang(now);
    }

    /** mark_as_spam!: report as spam, then save!; the spam flag itself
      is not written, and a missing request raises before the save. */
    method MarkAsSpamBang(now: Time) returns (outcome: Outcome, ghost r: Result<bool>)
      requires Valid()
      modifies this`errors, this`approvedAt, this`spam, this`id, this`savedApprovedAt, store,
               akismet`submissions, commentable`approvedCommentsCount
      ensures Valid()
      ensures ToAkismet().Err? ==>
        outcome == Fail(ToAkismet().error) && Start() == old(Start()) && errors == old(errors)
      ensures ToAkismet().Ok? ==>
        Saved(old(Start()).(sent := old(akismet.submissions) + [SpamSubmission(ToAkismet().value)]), now, r)
        && outcome == Raised(r)
    {
      var reported := MarkAsSpam();
      if reported.Fail? {
        return reported, Err(reported.error);
      }
      outcome, r := SaveBang(now);
    }

    /** mark_as_ham!: report as ham, then save!; the spam flag itself is
      not written, and a missing request raises before the save. */
    method MarkAsHamBang(now: Time) returns (outcome: Outcome, ghost r: Result<bool>)
      requires Valid()
      modifies this`errors, this`approvedAt, this`spam, this`id, this`savedApprovedAt, store,
               akismet`submissions, commentable`approvedCommentsCount
      ensures Valid()
      ensures ToAkismet().Err? ==>
        outcome == Fail(ToAkismet().error) && Start() == old(Start()) && errors == old(errors)
      ensures ToAkismet().Ok? ==>
        Saved(old(Start()).(sent := old(akismet.submissions) + [HamSubmission(ToAkismet().value)]), now, r)
        && outcome == Raised(r)
    {
      var reported := MarkAsHam();
      if reported.Fail? {
        return reported, Err(reported.error);
      }
      outcome, r := SaveBang(now);
    }
  }
}
