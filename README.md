# has_comments, modelled in Dafny

`has_comments` is a Rails 2 plugin (Ruby 1.8) that lets any model be given
comments. The model describes three parts:

- **The owner ("commentable") side.** `has_comments(options)` installs four
  options with defaults: `open`, `require_approval`, `check_spam` and
  `authorisation`. An owner instance answers three questions from them:
  "open for comments?", "is this user authorised?" and "does it require
  approval?". It also keeps an approved-comments counter cache.
- **The `Comment` record.** It covers:
  - validations: presence, name length, e-mail and URL formats, and the
    owner's two checks;
  - moderation state: `approved_at`, with `approve`, `unapprove`,
    `approved=` and `approve!`;
  - the spam flag: `spam=`, `mark_as_spam`, `mark_as_ham` and their bang
    versions;
  - the save sequence. A save runs the validations, then the
    before-create callbacks (auto-approval, then Akismet's verdict when the
    owner checks spam), then the insert or update, then the counter-cache
    update.
- **The Akismet side.** This is the request hash a controller sets on the
  `Comment` class, the Akismet configuration, Akismet's verdict (an oracle)
  and the log of spam and ham reports sent.

The two regular expressions of `AGW::HasComments::Utils` are written as
recognisers:

- **E-mail.** The `addr-spec` of section 6.1 of RFC 822, with the lexical
  tokens of section 3.3. It is proved to accept exactly the texts of
  well-formed address trees.
- **URL.** An http(s) host, port and path pattern.

The files:

- `values.dfy` holds Ruby values: truthiness, `blank?`, hash lookup and
  `Hash#merge`.
- `comment_table.dfy` holds the comments table and its two queries.
- `has_comments.dfy` holds the owner side.
- `spam.dfy` holds the Akismet side.
- `utils.dfy` holds the patterns.
- `comment.dfy` holds the `Comment` record.

Where the state changes in place, the model uses classes:

- the `Comment` record: `Comments.Comment`;
- the owner class and instance: `HasComments.CommentableClass` and
  `HasComments.Commentable`;
- the `Comment` class's request and the reports sent:
  `Spam.SpamContext`;
- the table: `CommentTable.CommentStore`.

Every save-path method states the new state of all of these. It does so
through one-state predicates (`Saved`, `Created`, `Updated`, `Rejected`)
over a `SaveStart` snapshot of the state the save began from.

Some of the code is given as parameters:

- the clock (`Time.now`) is a `now` argument;
- Akismet's verdict is the function `SpamContext.judge`;
- the owner's own methods and Procs, named by a Symbol or Proc option, are
  the functions of `HasComments.Host`.

Where the documentation and the code disagree, the model follows the code:

- The comment above `has_comments` (lib/agw/has_comments.rb:64-66) says
  `authorisation` defaults to `false`. The code installs `true`
  (lib/agw/has_comments.rb:78).
- `auto_approve` (lib/comment.rb:107) approves a comment when
  `require_approval` is `true`, or when it is `:auto` and the commenter has
  commented before. So `true` means "approve automatically", not "withhold
  until approved".
- `Comment.auto_approve?` ("approved before") runs `exists?` on the
  commenter's attributes (lib/comment.rb:80-82). That finds any stored
  comment by the commenter, approved or not, on any owner.

## Model

| member | source | states |
|---|---|---|
| Values.Lookup | lib/agw/has_comments.rb:16 | `options[key]` is the stored value for a present key and nil for a missing one |
| Values.Merge | lib/agw/has_comments/spam.rb:90 | `a.merge(b)` has the keys of both; a key in `b` takes `b`'s value, any other key keeps `a`'s |
| CommentTable.ApprovedCount | lib/agw/has_comments.rb:7 | `comments.approved.count` never exceeds the number of stored comments |
| CommentTable.ApprovedCountIsNumberApproved | lib/agw/has_comments.rb:7 | the count equals the number of positions holding an approved comment of this owner |
| CommentTable.ApprovedCountAppend | lib/agw/has_comments.rb:7 | inserting a comment raises the count by one exactly when it is an approved comment of this owner |
| CommentTable.ApprovedCountUpdate | lib/agw/has_comments.rb:7 | rewriting a stored comment changes the count by the new row's contribution minus the old one's |
| CommentTable.ExistsWithIdentity | lib/comment.rb:80-82 | `Comment.exists?(user_attributes)`: some stored row, on any owner and approved or not, has the user id of a registered commenter, or the name and e-mail of a public one; with no identity, no row matches |
| CommentTable.ExistsAfterInsert | lib/comment.rb:80-82 | once a comment with this identity is inserted, `exists?` for that identity holds |
| CommentTable.ExistsMonotone | lib/comment.rb:80-82 | further inserts never make `exists?` false again |
| HasComments.EvaluatePolicy | lib/agw/has_comments.rb:15-23 | `open_for_comments?`: true/false is returned as is; a Symbol calls the owner's method; a Proc is called; anything else, nil included, gives true |
| HasComments.PolicyRefusals | lib/agw/has_comments.rb:35-43 | an owner refuses (falsy answer) exactly when the option is false, or the named method or Proc, given the user id, answers nil or false |
| HasComments.CommentOptions | lib/agw/has_comments.rb:68-79 | a Hash or nil gives the defaults laid under the caller's keys, with the caller's values kept; anything else raises ArgumentError |
| HasComments.CommentOptionsAsWritten | lib/agw/has_comments.rb:71-74 | as written, a Hash argument gives the defaults laid under it (nil: see Findings) |
| HasComments.NilOptionsRaise | lib/agw/has_comments.rb:71-74 | as written, nil passes the guard and then raises NoMethodError; the corrected reading installs the defaults; on every other argument the two agree |
| HasComments.DefaultsAdmitEveryone | lib/agw/has_comments.rb:74-79 | without those options, an owner is open, every user is authorised, spam is not checked, and approval is `:auto` |
| HasComments.CommentableClass.HasComments | lib/agw/has_comments.rb:68-94 | the class options become the merged hash, or the call raises ArgumentError and the options are unchanged |
| HasComments.Commentable.RecalculateApprovedCommentsCount | lib/agw/has_comments.rb:6-8 | the counter cache holds the number of this owner's approved stored comments |
| HasComments.Commentable.OpenForComments | lib/agw/has_comments.rb:15-23 | `open_for_comments?` evaluates the `open` option with no arguments; a missing option gives true, and true or false is returned as given |
| HasComments.Commentable.AuthorisedForComments | lib/agw/has_comments.rb:35-43 | `authorised_for_comments?(user_id)` evaluates the `authorisation` option; a missing option gives true, and a Symbol sends that method the user id |
| HasComments.Commentable.AutoApproveComments | lib/agw/has_comments.rb:25-27 | `auto_approve_comments?` is the `require_approval` option as stored, nil when it is missing |
| Spam.PayloadMerge | lib/agw/has_comments/spam.rb:84-90 | the Akismet payload has the four comment keys plus the request's keys; a request key wins; the author, e-mail, url and content come from the comment unless the request overrides them |
| Spam.SpamTransition | lib/agw/has_comments/spam.rb:53-60 | `spam=` acts exactly when a spam comment receives '0' or false, or a clean one receives '1' or true; when it acts it flips the flag |
| Spam.ReportFor | lib/agw/has_comments/spam.rb:53-60 | at most one report is sent, and exactly one when the flag flips and the payload could be built |
| Spam.SpamAssignment | lib/agw/has_comments/spam.rb:53-60 | after `spam=`: a spam value leaves the flag set, a ham value leaves it clear, any other value leaves it as it was |
| Spam.SpamAssignmentIdempotent | lib/agw/has_comments/spam.rb:53-60 | assigning the same value a second time changes nothing and reports nothing |
| Spam.TransitionReports | lib/agw/has_comments/spam.rb:54-59 | marking a clean comment as spam sends a spam report; marking a spam comment as ham sends a ham report |
| Spam.SpamContext.SetRequest | lib/agw/has_comments/spam.rb:20-30 | `request=` keeps nil for nil, and otherwise the remote IP, the referrer and the user agent |
| Spam.SpamContext.Request | lib/agw/has_comments/spam.rb:14-16 | `Comment.request` raises NoMethodError without a request, and otherwise lays the Akismet configuration over the request |
| Utils.DelimitedRender | lib/agw/has_comments/utils.rb:21-22 | a quoted-string or domain-literal built from text characters and quoted pairs matches its token |
| Utils.DelimitedParse | lib/agw/has_comments/utils.rb:21-22 | every string matching a quoted-string or domain-literal is built that way |
| Utils.WordRender | lib/agw/has_comments/utils.rb:25 | a well-formed word's text is a non-empty `word` |
| Utils.WordParse | lib/agw/has_comments/utils.rb:25 | every `word` is the text of a well-formed word |
| Utils.SubDomainRender | lib/agw/has_comments/utils.rb:24 | a well-formed sub-domain's text is a non-empty `sub_domain` |
| Utils.SubDomainParse | lib/agw/has_comments/utils.rb:24 | every `sub_domain` is the text of a well-formed sub-domain |
| Utils.LocalPartRender | lib/agw/has_comments/utils.rb:27 | dot-joined well-formed words make a `local_part` |
| Utils.LocalPartParse | lib/agw/has_comments/utils.rb:27 | every `local_part` is a non-empty sequence of well-formed words joined by dots |
| Utils.DomainRender | lib/agw/has_comments/utils.rb:26 | dot-joined well-formed sub-domains make a `domain` |
| Utils.DomainParse | lib/agw/has_comments/utils.rb:26 | every `domain` is a non-empty sequence of well-formed sub-domains joined by dots |
| Utils.IsEmail | lib/agw/has_comments/utils.rb:16-29 | the whole value is a local part, an at sign and a domain (`\A` … `\z`) |
| Utils.AddressAccepted | lib/agw/has_comments/utils.rb:16-29 | the e-mail pattern accepts the text of every well-formed address |
| Utils.AcceptedIsAddress | lib/agw/has_comments/utils.rb:16-29 | every string the e-mail pattern accepts is the text of a well-formed address |
| Utils.EmailIsAddrSpec | lib/agw/has_comments/utils.rb:16-29 | the e-mail pattern accepts exactly the texts of well-formed addresses |
| Utils.EmailSamples | spec/comment_spec.rb:148-154 | 'foo' is not an address; 'foo@bar.com' is |
| Utils.IsUrl | lib/agw/has_comments/utils.rb:34 | the whole value is "http://" or "https://" in any case, then host labels, a dot and a top-level domain of 2 to 5 letters, an optional port of 1 to 5 digits, and an optional path; the corrected reading of the pattern |
| Utils.IsUrlAsWritten | lib/agw/has_comments/utils.rb:34 | the pattern as Ruby applies it with `=~`: some line of the value is a URL |
| Utils.LabelsHaveShape | lib/agw/has_comments/utils.rb:34 | every host-label run of the URL pattern is alphanumeric at both ends, with single dashes or dots between alphanumerics |
| Utils.ShapeIsLabels | lib/agw/has_comments/utils.rb:34 | every string of that shape matches the host-label part of the pattern |
| Utils.LabelsIffShape | lib/agw/has_comments/utils.rb:34 | the host-label grammar and that shape describe the same strings |
| Utils.AcceptedUrlShape | lib/agw/has_comments/utils.rb:34 | an accepted URL starts with "http://" or "https://" in any case and holds no newline |
| Utils.AsWrittenAgreesOnOneLine | lib/agw/has_comments/utils.rb:34 | on a value without a newline, the line-anchored pattern and the whole-value pattern agree |
| Utils.AsWrittenOnLines | lib/agw/has_comments/utils.rb:34 | the line-anchored pattern accepts a value when its first line is a URL or it accepts the rest |
| Utils.AsWrittenAcceptsInjectedLine | lib/agw/has_comments/utils.rb:34 | the line-anchored pattern accepts "javascript:alert(1)\nhttp://foo.com", which is not a URL |
| Utils.UrlSamples | spec/comment_spec.rb:157-163 | 'foo' is not a URL; 'http://foo.com' is |
| Comments.ValidationErrors | lib/comment.rb:9-20 | the messages `valid?` records per attribute: presence of the body, of name and e-mail unless registered and of the user id unless public; the name length; the e-mail and url formats (blank values skipped); and the two owner checks on the base |
| Comments.ValidExactlyWhenAcceptable | lib/comment.rb:9-20 | a comment has no errors exactly when all of these hold: the body is not blank; a user id is set, or name and e-mail are both not blank; a non-blank name has 3 to 200 characters; a non-blank e-mail and URL are well formed; the owner is open and the user authorised |
| Comments.NameMessages | lib/comment.rb:11-14 | the name carries "can't be blank" when blank and no user id is set; otherwise "too short" below 3 or "too long" above 200; otherwise nothing |
| Comments.EmailMessages | lib/comment.rb:11-15 | the e-mail carries "can't be blank" when blank and no user id is set, "is invalid" when present and malformed, and nothing otherwise |
| Comments.SingleMessages | lib/comment.rb:9-16 | the body carries "can't be blank" exactly when blank; the user id exactly when neither a user id nor both name and e-mail are given; the URL carries "is invalid" exactly when present and malformed |
| Comments.BaseMessages | lib/comment.rb:116-126 | the base holds "You cannot comment on this object." exactly when the owner is closed, and "You are not allowed to comment on this object." exactly when the user is refused; it holds nothing else |
| Comments.OneMessagePerAttribute | lib/comment.rb:9-16 | every attribute other than the base carries at most one message |
| Comments.IsRegistered | lib/comment.rb:89-91 | `registered_user?`: the user id is set |
| Comments.IsPublic | lib/comment.rb:93-95 | `public_user?`: name and e-mail are both set (not nil), even when empty |
| Comments.Identify | lib/comment.rb:70-76 | `user_attributes` is the user id when set, else name and e-mail when both are set, else nil |
| Comments.ValidCommentHasIdentity | lib/comment.rb:11-12 | a comment that passes validation always has an identity for `exists?` |
| Comments.AutoApproves | lib/comment.rb:106-108 | the `auto_approve` decision: `require_approval` is exactly true, or is `:auto` and `exists?` finds a stored comment with the commenter's identity |
| Comments.RepeatCommenterApproved | spec/comment_spec.rb:96-104 | a commenter with a stored comment is auto-approved on an `:auto` owner, whatever was stored since |
| Comments.FirstCommentPending | lib/comment.rb:106-108 | with nothing stored, a comment is approved on create exactly when `require_approval` is `true` |
| Comments.Stamped | lib/comment.rb:43-45 | after `approve` the comment is approved, and an existing approval time is kept |
| Comments.Raised | lib/comment.rb:39 | `save!` passes exactly when `save` stored the comment; it raises RecordInvalid for an invalid comment, and re-raises any exception a callback raised |
| Comments.Comment.constructor | generators/has_comments/templates/migration.rb:11-12 | a new comment is pending, not spam, not stored, and has no errors |
| Comments.Comment.IsApproved | lib/comment.rb:63-65 | `approved?`: `approved_at` is set |
| Comments.Comment.ToAkismet | lib/agw/has_comments/spam.rb:84-93 | `to_akismet` fails exactly when no request is set |
| Comments.Comment.Approve | lib/comment.rb:43-45 | `approved_at` is stamped with the time unless it was already set |
| Comments.Comment.Unapprove | lib/comment.rb:48-50 | `approved_at` becomes nil |
| Comments.Comment.SetApproved | lib/comment.rb:54-59 | '1' approves, '0' unapproves, and any other value leaves `approved_at` alone |
| Comments.Comment.Validate | lib/comment.rb:9-20 | `valid?` records the validation errors and answers whether there are none |
| Comments.Comment.SpamAccordingToAkismet | lib/agw/has_comments/spam.rb:37-39 | Akismet's verdict on the payload, or the error raised building it |
| Comments.Comment.MarkAsSpam | lib/agw/has_comments/spam.rb:42-45 | one spam report with the payload is sent, or the call raises and nothing is sent |
| Comments.Comment.MarkAsHam | lib/agw/has_comments/spam.rb:66-69 | one ham report with the payload is sent, or the call raises and nothing is sent |
| Comments.Comment.SetSpam | lib/agw/has_comments/spam.rb:53-63 | the flag follows the transition; exactly the report for that transition is sent; a missing request is rescued, so the flag is still written and nothing is sent |
| Comments.Comment.NoSpam | lib/comment.rb:98-101 | Akismet's verdict is assigned through `spam=` and the save goes on; a missing request raises before anything changes |
| Comments.Comment.JudgeSpam | lib/comment.rb:24 | `no_spam` runs only when the owner's `check_spam` option is truthy; it fails only when it runs and no request is set |
| Comments.Comment.ApproveOnCreate | lib/comment.rb:106-108 | the comment is approved when `require_approval` is true, or when it is `:auto` and the commenter already has a stored comment |
| Comments.Comment.AfterSave | lib/comment.rb:112-114 | the owner's counter is recomputed exactly when `approved_at` changed since the last save |
| Comments.Comment.Insert | lib/comment.rb:25 | the new row goes last, the comment takes its position as id, and the counter cache follows |
| Comments.Comment.Create | lib/comment.rb:23-25 | auto-approval, then the spam verdict when checked, then the insert; a missing request stops the create before anything is stored |
| Comments.Comment.Update | lib/comment.rb:25 | a stored comment's row is rewritten in place, and the counter cache follows |
| Comments.Comment.Persist | lib/comment.rb:23-25 | a new comment is created through the before-create callbacks, and a stored one is updated without them (the after-save callback runs on both) |
| Comments.Comment.Save | lib/comment.rb:9-25 | `save` records the errors. If there are any, it answers false and nothing is approved, flagged, stored or reported; otherwise the comment is created or updated |
| Comments.Comment.SaveBang | lib/comment.rb:39 | `save!` does what `save` does, and raises exactly when `save` did not store the comment |
| Comments.Comment.ApproveBang | lib/comment.rb:37-40 | `approve!` stamps `approved_at`, then saves as `save!` |
| Comments.Comment.MarkAsSpamBang | lib/agw/has_comments/spam.rb:48-51 | `mark_as_spam!` sends a spam report and then saves as `save!`, without writing the flag; a missing request raises before the save and nothing changes |
| Comments.Comment.MarkAsHamBang | lib/agw/has_comments/spam.rb:72-75 | `mark_as_ham!` sends a ham report and then saves as `save!`, without writing the flag; a missing request raises before the save and nothing changes |

## Left out

- Logging (`logger.info`, `logger.warn`).
  - It has no effect on state.
- The `rescue NameError` in `spam=` (lib/agw/has_comments/spam.rb:61).
  - Only the case of a missing request is modelled: `nil.merge` raises NoMethodError, which is a NameError.
  - A missing Akismetor library is not modelled, because Akismet is an oracle here.
- Loading `config/akismet.yml` (lib/agw/has_comments/spam.rb:7-11).
  - The configuration is a constant map; file I/O is not modelled.
- The `rescue TypeError` in `to_akismet` (lib/agw/has_comments/spam.rb:91-92).
  - No modelled value raises TypeError there.
- The `@request` and `@spam_according_to_akismet` instance variables that `to_akismet` and `spam_according_to_akismet?` set.
  - Nothing reads them.
- Attribute setters and mass assignment (`attr_accessible`).
  - The attributes are given to the constructor.
- The default scope and the named scopes (lib/comment.rb:28-30).
  - Only `approved` is used, as the approved count; ordering is not modelled.
- The timestamp columns (`created_at`, `updated_at`). Nothing modelled reads them.
- The `comments_count` counter cache that `belongs_to` keeps (lib/comment.rb:4-6).
  - Only the approved counter is modelled.
- `has_many`, `:dependent => :destroy` and `accepts_nested_attributes_for` (lib/agw/has_comments.rb:83-91).
  - Deleting and nested editing are generated by Rails; they are not plugin logic.
- `class_inheritable_accessor` and `include InstanceMethods` (lib/agw/has_comments.rb:81, 91).
  - The options live on the owner class object.
  - `reverse_merge!` mutating the caller's own hash is not modelled.
  - Option inheritance by subclasses is not modelled.
- Persisting the owner row in `update_attribute` (lib/agw/has_comments.rb:7).
  - The counter is a field of the owner object.
- lib/agw/has_comments/helpers.rb (Gravatar URLs and view helpers) is not part of this model.
- The clock and the transaction.
  - `Time.now` is the `now` parameter.
  - The transaction Rails wraps around a save is not modelled: in a failed create, `approved_at` was set in memory before the exception, and it stays set.
- Characters are read as single bytes, and the name length is counted in characters.
  - Multi-byte encodings are not modelled.
- Comments.Comment.Validate: it keeps the messages of each attribute, in order, but not the order in which attributes were added.
  - Ruby 1.8's errors hash does not keep that order either.
- Comments.ValidationErrors: checks the url with the corrected whole-value pattern `Utils.IsUrl`, not the line-anchored `Utils.IsUrlAsWritten` (see Findings).
  - A url whose second line is a URL, such as "javascript:alert(1)\nhttp://foo.com", passes the original validation; here it gets "is invalid".
- HasComments.CommentableClass.HasComments: installs the corrected `HasComments.CommentOptions`, not `HasComments.CommentOptionsAsWritten` (see Findings).
  - So `has_comments(nil)` installs the defaults here, where the original raises NoMethodError.
- Values.Lookup: option keys are strings, where the original uses Ruby Symbols (`:open`, `:require_approval`, ...).
  - A caller's String key "open" would not replace the Symbol default in Ruby; in the model it does.
- Comments.Comment: a comment always has an owner (`commentable` is a non-null object).
  - A comment built with no owner, on which `valid?` raises NoMethodError (lib/comment.rb:119, 125), is not modelled.
- HasComments.Host: the owner's methods and Procs, named by a Symbol or Proc option, always return a value.
  - A Symbol naming a method the owner lacks (the `send` at lib/agw/has_comments.rb:18, 38), or a Proc that raises, makes `valid?` raise in the original; here the policy always answers.
- CommentTable.ExistsWithIdentity: `exists?` with a nil condition is modelled as false.
  - Validation guarantees an identity, so `save` never reaches that case.

## Findings

| source | as written | input that shows it | evidently intended | confidence | as-written member | corrected member |
|---|---|---|---|---|---|---|
| lib/agw/has_comments.rb:71-74 | the guard accepts nil, and the next line sends `reverse_merge!` to the argument | `has_comments(nil)` raises NoMethodError | nil treated as no options, so the defaults are installed | not executed | HasComments.NilOptionsRaise | HasComments.CommentOptions |
| lib/agw/has_comments/utils.rb:34 | the URL pattern uses `^` and `$`, which in Ruby anchor at line boundaries | "javascript:alert(1)\nhttp://foo.com" passes the URL validation | the whole value must be one URL (`\A` ... `\z`) | not executed | Utils.AsWrittenAcceptsInjectedLine | Utils.IsUrl |
