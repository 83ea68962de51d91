/** AGW::HasComments: what `has_comments` adds to an owner ("commentable")
    class. The class keeps one options hash; each owner instance answers
    "open for comments?", "authorised?" and "require approval?" from it
    and recomputes its approved-comments counter cache. */
module HasComments {
  import opened Values
  import opened CommentTable

  /** The code of the owner that this model cannot see: `send(name, args)`
      runs the owner's instance method `name`, `call(p, args)` runs the
      Proc numbered `p`. */
  datatype Host = Host(send: (string, seq<RValue>) -> RValue, call: (nat, seq<RValue>) -> RValue)

  /** The one evaluator behind open_for_comments? and
      authorised_for_comments?: `case option` over true/false, a Symbol,
      a Proc, and anything else. */
  function EvaluatePolicy(option: RValue, args: seq<RValue>, host: Host): (r: RValue)
    ensures option.RBool? ==> r == option
    ensures option.RSymbol? ==> r == host.send(option.name, args)
    ensures option.RProc? ==> r == host.call(option.id, args)
    ensures !(option.RBool? || option.RSymbol? || option.RProc?) ==> r == RBool(true)
  {
    match option
    case RBool(_) => option
    case RSymbol(m) => host.send(m, args)
    case RProc(p) => host.call(p, args)
    case _ => RBool(true)
  }

  /** A policy refuses only when the option is literally false, or when
      the method or Proc it names answers nil or false. */
  lemma PolicyRefusals(option: RValue, args: seq<RValue>, host: Host)
    ensures !Truthy(EvaluatePolicy(option, args, host)) <==>
      || option == RBool(false)
      || (option.RSymbol? && !Truthy(host.send(option.name, args)))
      || (option.RProc? && !Truthy(host.call(option.id, args)))
  {
  }

  /** The defaults `has_comments` fills in. */
  function DefaultOptions(): map<string, RValue> {
    map[
      "open" := RBool(true),
      "require_approval" := RSymbol("auto"),
      "check_spam" := RBool(false),
      "authorisation" := RBool(true)]
  }

  /** The argument given to `has_comments`. */
  datatype OptionsArgument = HashArgument(h: map<string, RValue>) | NilArgument | OtherArgument(v: RValue)

  /** The options `has_comments` installs, with nil read as no options.
      Caller keys are kept as given; the defaults fill only the keys the
      caller left out; anything but a Hash or nil raises ArgumentError. */
  function CommentOptions(arg: OptionsArgument): (r: Result<map<string, RValue>>)
    ensures r.Err? <==> arg.OtherArgument?
    ensures r.Err? ==> r.error == ArgumentError
    ensures r.Ok? ==> r.value.Keys == DefaultOptions().Keys + (if arg.HashArgument? then arg.h.Keys else {})
    ensures r.Ok? && arg.HashArgument? ==> forall k :: k in arg.h ==> r.value[k] == arg.h[k]
    ensures r.Ok? ==> forall k :: k in DefaultOptions() && !(arg.HashArgument? && k in arg.h) ==>
      r.value[k] == DefaultOptions()[k]
  {
    match arg
    case HashArgument(h) => Ok(Merge(DefaultOptions(), h))
    case NilArgument => Ok(DefaultOptions())
    case OtherArgument(_) => Err(ArgumentError)
  }

  /** The same steps as written: the guard lets nil through, and the
      next line sends `reverse_merge!` to it, which nil does not have. */
  function CommentOptionsAsWritten(arg: OptionsArgument): (r: Result<map<string, RValue>>)
    ensures arg.HashArgument? ==> r == Ok(Merge(DefaultOptions(), arg.h))
  {
    match arg
    case HashArgument(h) => Ok(Merge(DefaultOptions(), h))
    case NilArgument => Err(NoMethodError)
    case OtherArgument(_) => Err(ArgumentError)
  }

  /** `has_comments(nil)` passes the argument check and still raises,
      where the corrected reading installs the defaults; on every other
      argument the two agree. */
  lemma NilOptionsRaise(arg: OptionsArgument)
    ensures CommentOptionsAsWritten(NilArgument) == Err(NoMethodError)
    ensures CommentOptions(NilArgument) == Ok(DefaultOptions())
    ensures arg != NilArgument ==> CommentOptionsAsWritten(arg) == CommentOptions(arg)
  {
  }

  /** With the default options every owner is open, every user is
      authorised, approval is automatic and spam is not checked. */
  lemma DefaultsAdmitEveryone(h: map<string, RValue>, userId: RValue, host: Host)
    requires "open" !in h && "authorisation" !in h && "check_spam" !in h
    ensures CommentOptions(HashArgument(h)).Ok?
    ensures var o := CommentOptions(HashArgument(h)).value;
      && EvaluatePolicy(Lookup(o, "open"), [], host) == RBool(true)
      && EvaluatePolicy(Lookup(o, "authorisation"), [userId], host) == RBool(true)
      && Lookup(o, "check_spam") == RBool(false)
      && ("require_approval" !in h ==> Lookup(o, "require_approval") == RSymbol("auto"))
  {
  }

  /** An owner class: its name (the commentable_type of its comments) and
      the class-level options hash. */
  class CommentableClass {
    const name: string
    var options: map<string, RValue>

    constructor (name: string)
      ensures this.name == name && options == map[]
    {
      this.name := name;
      options := map[];
    }

    /** `has_comments(options)`. */
    method HasComments(arg: OptionsArgument) returns (outcome: Outcome)
      modifies this`options
      ensures outcome == (if arg.OtherArgument? then Fail(ArgumentError) else Pass)
      ensures outcome == Pass ==> options == CommentOptions(arg).value
      ensures outcome != Pass ==> options == old(options)
    {
      var r := CommentOptions(arg);
      if r.Err? {
        outcome := Fail(r.error);
      } else {
        options := r.value;
        outcome := Pass;
      }
    }
  }

  /** An owner instance. */
  class Commentable {
    const klass: CommentableClass
    const id: int
    const host: Host
    var approvedCommentsCount: Option<nat>

    constructor (klass: CommentableClass, id: int, host: Host)
      ensures this.klass == klass && this.id == id && this.host == host
      ensures approvedCommentsCount == None
    {
      this.klass := klass;
      this.id := id;
      this.host := host;
      approvedCommentsCount := None;
    }

    /** open_for_comments? */
    function OpenForComments(): (r: RValue)
      reads klass
      ensures "open" !in klass.options ==> r == RBool(true)
      ensures Lookup(klass.options, "open").RBool? ==> r == Lookup(klass.options, "open")
    {
      EvaluatePolicy(Lookup(klass.options, "open"), [], host)
    }

    /** authorised_for_comments?(user_id): the same evaluator, with the
      user id passed on to the method or Proc. */
    function AuthorisedForComments(userId: RValue): (r: RValue)
      reads klass
      ensures "authorisation" !in klass.options ==> r == RBool(true)
      ensures Lookup(klass.options, "authorisation").RSymbol? ==>
        r == host.send(Lookup(klass.options, "authorisation").name, [userId])
    {
      EvaluatePolicy(Lookup(klass.options, "authorisation"), [userId], host)
    }

    /** auto_approve_comments?: the require_approval option, verbatim. */
    function AutoApproveComments(): (r: RValue)
      reads klass
      ensures "require_approval" !in klass.options ==> r == RNil
    {
      Lookup(klass.options, "require_approval")
    }

    /** recalculate_approved_comments_count! */
    method RecalculateApprovedCommentsCount(store: CommentStore)
      modifies this`approvedCommentsCount
      ensures approvedCommentsCount == Some(ApprovedCount(store.rows, klass.name, id))
    {
      approvedCommentsCount := Some(ApprovedCount(store.rows, klass.name, id));
    }
  }
}
