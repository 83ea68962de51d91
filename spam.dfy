/** AGW::HasComments::Spam: the Akismet side of a comment. Akismet itself
    is an oracle that judges a payload, plus an append-only log of the
    spam and ham reports sent to it. The class-level request hash that a
    controller sets, and the Akismet configuration, live beside it. */
module Spam {
  import opened Values

  /** A hash sent to Akismet. */
  type Payload = map<string, RValue>

  /** What a controller's request offers: the remote IP and the
      environment (HTTP headers among it). */
  datatype HttpRequest = HttpRequest(remoteIp: RValue, env: map<string, RValue>)

  /** One report sent to Akismet. */
  datatype Submission = SpamSubmission(payload: Payload) | HamSubmission(payload: Payload)

  /** The hash `request=` keeps for a request. */
  function RequestInfo(req: HttpRequest): Payload {
    map[
      "user_ip" := req.remoteIp,
      "referrer" := Lookup(req.env, "HTTP_REFERER"),
      "user_agent" := Lookup(req.env, "HTTP_USER_AGENT")]
  }

  /** The comment's own part of the payload. */
  function CommentFields(name: RValue, email: RValue, url: RValue, body: RValue): Payload {
    map[
      "comment_author" := name,
      "comment_author_email" := email,
      "comment_author_url" := url,
      "comment_content" := body]
  }

  /** The payload of `to_akismet`: the comment's fields merged with the
      request, so a request key wins over a comment field of that name. */
  lemma PayloadMerge(name: RValue, email: RValue, url: RValue, body: RValue, request: Payload)
    ensures var p := Merge(CommentFields(name, email, url, body), request);
      && p.Keys == {"comment_author", "comment_author_email", "comment_author_url", "comment_content"} + request.Keys
      && (forall k :: k in request ==> p[k] == request[k])
      && ("comment_content" !in request ==> p["comment_content"] == body)
      && ("comment_author" !in request ==> p["comment_author"] == name)
      && ("comment_author_email" !in request ==> p["comment_author_email"] == email)
      && ("comment_author_url" !in request ==> p["comment_author_url"] == url)
  {
  }

  /** The values `spam=` reads as "spam" and as "ham". */
  predicate MeansSpam(v: RValue) {
    v == RStr("1") || v == RBool(true)
  }

  predicate MeansHam(v: RValue) {
    v == RStr("0") || v == RBool(false)
  }

  /** What `spam=` does with the flag: Some(new flag) when it acts,
      None when it leaves everything alone. */
  function SpamTransition(spam: bool, v: RValue): (t: Option<bool>)
    ensures t.Some? <==> (spam && MeansHam(v)) || (!spam && MeansSpam(v))
    ensures t.Some? ==> t.value == !spam
  {
    if spam && MeansHam(v) then Some(false)
    else if !spam && MeansSpam(v) then Some(true)
    else None
  }

  /** The flag after `spam=`. */
  function SpamAfter(spam: bool, v: RValue): bool {
    match SpamTransition(spam, v)
    case Some(b) => b
    case None => spam
  }

  /** The report a transition sends, when the payload could be built. */
  function ReportFor(t: Option<bool>, payload: Result<Payload>): (log: seq<Submission>)
    ensures |log| <= 1
    ensures |log| == 1 <==> t.Some? && payload.Ok?
  {
    if t.None? || payload.Err? then []
    else if t.value then [SpamSubmission(payload.value)]
    else [HamSubmission(payload.value)]
  }

  /** Assigning a spam value gives a spam flag and assigning a ham value a
      clean one; any other value leaves the flag as it was. */
  lemma SpamAssignment(spam: bool, v: RValue)
    ensures MeansSpam(v) ==> SpamAfter(spam, v)
    ensures MeansHam(v) ==> !SpamAfter(spam, v)
    ensures !MeansSpam(v) && !MeansHam(v) ==> SpamAfter(spam, v) == spam
  {
  }

  /** Assigning the same value twice acts at most once: the second
      assignment finds the flag already set and sends nothing. */
  lemma SpamAssignmentIdempotent(spam: bool, v: RValue, payload: Result<Payload>)
    ensures SpamTransition(SpamAfter(spam, v), v) == None
    ensures ReportFor(SpamTransition(SpamAfter(spam, v), v), payload) == []
  {
  }

  /** A transition to spam sends a spam report, one to ham a ham report. */
  lemma TransitionReports(spam: bool, v: RValue, p: Payload)
    ensures !spam && MeansSpam(v) ==> ReportFor(SpamTransition(spam, v), Ok(p)) == [SpamSubmission(p)]
    ensures spam && MeansHam(v) ==> ReportFor(SpamTransition(spam, v), Ok(p)) == [HamSubmission(p)]
  {
  }

  /** The Comment class's spam state: the request its controller set, the
      Akismet configuration, Akismet's verdict and the reports sent. */
  class SpamContext {
    var request: Option<Payload>
    const akismetConfig: Payload
    const judge: Payload -> bool
    var submissions: seq<Submission>

    constructor (akismetConfig: Payload, judge: Payload -> bool)
      ensures request == None && submissions == []
      ensures this.akismetConfig == akismetConfig && this.judge == judge
    {
      request := None;
      this.akismetConfig := akismetConfig;
      this.judge := judge;
      submissions := [];
    }

    /** `Comment.request = request` */
    method SetRequest(req: Option<HttpRequest>)
      modifies this`request
      ensures request == (if req.None? then None else Some(RequestInfo(req.value)))
    {
      if req.None? {
        request := None;
      } else {
        request := Some(RequestInfo(req.value));
      }
    }

    /** `Comment.request`: the request hash with the configuration laid
      over it; nil has no `merge`, so without a request it raises. */
    function Request(): (r: Result<Payload>)
      reads this`request
      ensures request.None? ==> r == Err(NoMethodError)
      ensures request.Some? ==> r.Ok? && r.value.Keys == request.value.Keys + akismetConfig.Keys
      ensures request.Some? ==> forall k :: k in akismetConfig ==> r.value[k] == akismetConfig[k]
      ensures request.Some? ==> forall k :: k in request.value && k !in akismetConfig ==> r.value[k] == request.value[k]
    {
      match request
      case None => Err(NoMethodError)
      case Some(req) => Ok(Merge(req, akismetConfig))
    }
  }
}
