/** The two format patterns of AGW::HasComments::Utils, written as
    recognisers over character sequences.

    `Utils.email` is a hand-written grammar for the `addr-spec` of
    section 6.1 of RFC 822, built from the lexical tokens `atom`,
    `quoted-string`, `quoted-pair` and `domain-literal` of section 3.3;
    it is anchored with `\A` and `\z`, so the whole value must match.
    Characters are read as bytes: every character at or above 0x80 is
    outside every token.

    `Utils.url` is a simple http(s) host/port/path pattern. */
module Utils {

  /** The first position of `s` holding a character of `cs`, or |s|. */
  function FirstIndexOf(s: string, cs: set<char>): (k: nat)
    ensures k <= |s|
    ensures k < |s| ==> s[k] in cs
    ensures forall j :: 0 <= j < k ==> s[j] !in cs
  {
    if s == [] || s[0] in cs then 0 else 1 + FirstIndexOf(s[1..], cs)
  }

  lemma SplitAround(s: string, i: nat)
    requires i < |s|
    ensures s[..i] + [s[i]] + s[i + 1..] == s
  {
  }

  // ===================================================================
  // E-mail: the tokens
  // ===================================================================

  /** An atom character: none of 0x00-0x20, `"`, `(`, `)`, `,`, `.`,
      `:`, `;`, `<`, `>`, `@`, `[`, `\`, `]`, 0x7f and above. */
  predicate AtomChar(c: char) {
    var n := c as int;
    0x21 <= n < 0x7f && n != 0x22 && n != 0x28 && n != 0x29 && n != 0x2c && n != 0x2e
    && !(0x3a <= n <= 0x3c) && n != 0x3e && n != 0x40 && !(0x5b <= n <= 0x5d)
  }

  /** qtext: anything but CR, `"`, `\` and the high half. */
  predicate QText(c: char) {
    var n := c as int;
    n < 0x80 && n != 0x0d && n != 0x22 && n != 0x5c
  }

  /** dtext: anything but CR, `[`, `\`, `]` and the high half. */
  predicate DText(c: char) {
    var n := c as int;
    n < 0x80 && n != 0x0d && !(0x5b <= n <= 0x5d)
  }

  /** The character a quoted-pair may escape. */
  predicate SevenBit(c: char) {
    c as int < 0x80
  }

  /** The two delimited tokens: a quoted-string `"..."` holds qtext,
      a domain-literal `[...]` holds dtext; both admit quoted pairs. */
  datatype Delimiter = Quote | Square

  function Opening(d: Delimiter): char {
    if d == Quote then '"' else '['
  }

  function Closing(d: Delimiter): char {
    if d == Quote then '"' else ']'
  }

  predicate InnerText(d: Delimiter, c: char) {
    if d == Quote then QText(c) else DText(c)
  }

  predicate IsAtom(s: string) {
    |s| > 0 && forall i :: 0 <= i < |s| ==> AtomChar(s[i])
  }

  /** What lies between the delimiters: text characters and quoted pairs,
      in any number. */
  predicate Content(d: Delimiter, s: string)
    decreases |s|
  {
    s == []
    || (InnerText(d, s[0]) && Content(d, s[1..]))
    || (|s| >= 2 && s[0] == '\\' && SevenBit(s[1]) && Content(d, s[2..]))
  }

  /** quoted_string for Quote, domain_literal for Square. */
  predicate Delimited(d: Delimiter, s: string) {
    |s| >= 2 && s[0] == Opening(d) && s[|s| - 1] == Closing(d) && Content(d, s[1..|s| - 1])
  }

  // ===================================================================
  // E-mail: the grammar
  // ===================================================================

  /** A word: an atom or a quoted string. */
  predicate IsWord(s: string) {
    IsAtom(s) || Delimited(Quote, s)
  }

  /** A sub-domain: an atom or a domain literal. */
  predicate IsSubDomain(s: string) {
    IsAtom(s) || Delimited(Square, s)
  }

  /** The local part: one or more words joined by dots. */
  predicate IsLocalPart(s: string)
    decreases |s|
  {
    IsWord(s)
    || exists i :: 0 < i < |s| && s[i] == '.' && IsWord(s[..i]) && IsLocalPart(s[i + 1..])
  }

  /** The domain: one or more sub-domains joined by dots. */
  predicate IsDomain(s: string)
    decreases |s|
  {
    IsSubDomain(s)
    || exists i :: 0 < i < |s| && s[i] == '.' && IsSubDomain(s[..i]) && IsDomain(s[i + 1..])
  }

  /** The e-mail pattern, matched against the whole value: a local part,
      an at sign, and a domain. */
  predicate IsEmail(s: string) {
    exists i :: 0 <= i < |s| && s[i] == '@' && IsLocalPart(s[..i]) && IsDomain(s[i + 1..])
  }

  // ===================================================================
  // E-mail: addresses as structured values
  // ===================================================================

  /** A character of a delimited token: plain text, or a quoted pair
      (a backslash and the character it escapes). */
  datatype Piece = Text(c: char) | Pair(c: char)

  datatype Word = AtomWord(atom: string) | QuotedWord(pieces: seq<Piece>)

  datatype SubDomain = DomainRef(ref: string) | DomainLiteral(pieces: seq<Piece>)

  /** An addr-spec: the dot-separated words of the local part and the
      dot-separated sub-domains of the domain. */
  datatype AddrSpec = AddrSpec(localPart: seq<Word>, domain: seq<SubDomain>)

  predicate PieceOk(d: Delimiter, p: Piece) {
    match p
    case Text(c) => InnerText(d, c)
    case Pair(c) => SevenBit(c)
  }

  predicate PiecesOk(d: Delimiter, ps: seq<Piece>) {
    forall i :: 0 <= i < |ps| ==> PieceOk(d, ps[i])
  }

  predicate WordOk(w: Word) {
    match w
    case AtomWord(a) => IsAtom(a)
    case QuotedWord(ps) => PiecesOk(Quote, ps)
  }

  predicate SubDomainOk(sd: SubDomain) {
    match sd
    case DomainRef(a) => IsAtom(a)
    case DomainLiteral(ps) => PiecesOk(Square, ps)
  }

  predicate WellFormed(a: AddrSpec) {
    && |a.localPart| > 0
    && |a.domain| > 0
    && (forall i :: 0 <= i < |a.localPart| ==> WordOk(a.localPart[i]))
    && (forall i :: 0 <= i < |a.domain| ==> SubDomainOk(a.domain[i]))
  }

  function RenderPieces(ps: seq<Piece>): string {
    if ps == [] then []
    else
      (match ps[0]
       case Text(c) => [c]
       case Pair(c) => ['\\', c])
      + RenderPieces(ps[1..])
  }

  function RenderDelimited(d: Delimiter, ps: seq<Piece>): string {
    [Opening(d)] + RenderPieces(ps) + [Closing(d)]
  }

  function RenderWord(w: Word): string {
    match w
    case AtomWord(a) => a
    case QuotedWord(ps) => RenderDelimited(Quote, ps)
  }

  function RenderSubDomain(sd: SubDomain): string {
    match sd
    case DomainRef(a) => a
    case DomainLiteral(ps) => RenderDelimited(Square, ps)
  }

  function RenderLocalPart(ws: seq<Word>): string {
    if ws == [] then []
    else if |ws| == 1 then RenderWord(ws[0])
    else RenderWord(ws[0]) + ['.'] + RenderLocalPart(ws[1..])
  }

  function RenderDomain(ds: seq<SubDomain>): string {
    if ds == [] then []
    else if |ds| == 1 then RenderSubDomain(ds[0])
    else RenderSubDomain(ds[0]) + ['.'] + RenderDomain(ds[1..])
  }

  /** The text of an address. */
  function Render(a: AddrSpec): string {
    RenderLocalPart(a.localPart) + ['@'] + RenderDomain(a.domain)
  }

  // ===================================================================
  // E-mail: the pattern accepts exactly the texts of addresses
  // ===================================================================

  lemma {:induction false} PiecesMatchContent(d: Delimiter, ps: seq<Piece>)
    requires PiecesOk(d, ps)
    ensures Content(d, RenderPieces(ps))
  {
    if ps != [] {
      var s, rest := RenderPieces(ps), RenderPieces(ps[1..]);
      assert PiecesOk(d, ps[1..]) by {
        forall i | 0 <= i < |ps[1..]| ensures PieceOk(d, ps[1..][i]) {
          assert ps[1..][i] == ps[i + 1];
        }
      }
      PiecesMatchContent(d, ps[1..]);
      assert PieceOk(d, ps[0]);
      match ps[0]
      case Text(c) =>
        assert s == [c] + rest;
        assert s[1..] == rest;
      case Pair(c) =>
        assert s == ['\\', c] + rest;
        assert s[2..] == rest;
    }
  }

  lemma {:induction false} ContentHasPieces(d: Delimiter, s: string) returns (ps: seq<Piece>)
    requires Content(d, s)
    ensures PiecesOk(d, ps) && RenderPieces(ps) == s
    decreases |s|
  {
    if s == [] {
      ps := [];
    } else if InnerText(d, s[0]) && Content(d, s[1..]) {
      var rest := ContentHasPieces(d, s[1..]);
      ps := [Text(s[0])] + rest;
      assert ps[1..] == rest;
      assert [s[0]] + s[1..] == s;
    } else {
      var rest := ContentHasPieces(d, s[2..]);
      ps := [Pair(s[1])] + rest;
      assert ps[1..] == rest;
      assert ['\\', s[1]] + s[2..] == s;
    }
  }

  lemma DelimitedRender(d: Delimiter, ps: seq<Piece>)
    requires PiecesOk(d, ps)
    ensures Delimited(d, RenderDelimited(d, ps))
  {
    var s := RenderDelimited(d, ps);
    assert s[1..|s| - 1] == RenderPieces(ps);
    PiecesMatchContent(d, ps);
  }

  lemma DelimitedParse(d: Delimiter, s: string) returns (ps: seq<Piece>)
    requires Delimited(d, s)
    ensures PiecesOk(d, ps) && RenderDelimited(d, ps) == s
  {
    ps := ContentHasPieces(d, s[1..|s| - 1]);
    assert [s[0]] + s[1..|s| - 1] + [s[|s| - 1]] == s;
  }

  lemma WordRender(w: Word)
    requires WordOk(w)
    ensures IsWord(RenderWord(w)) && |RenderWord(w)| > 0
  {
    if w.QuotedWord? {
      DelimitedRender(Quote, w.pieces);
    }
  }

  lemma WordParse(s: string) returns (w: Word)
    requires IsWord(s)
    ensures WordOk(w) && RenderWord(w) == s
  {
    if IsAtom(s) {
      w := AtomWord(s);
    } else {
      var ps := DelimitedParse(Quote, s);
      w := QuotedWord(ps);
    }
  }

  lemma SubDomainRender(sd: SubDomain)
    requires SubDomainOk(sd)
    ensures IsSubDomain(RenderSubDomain(sd)) && |RenderSubDomain(sd)| > 0
  {
    if sd.DomainLiteral? {
      DelimitedRender(Square, sd.pieces);
    }
  }

  lemma SubDomainParse(s: string) returns (sd: SubDomain)
    requires IsSubDomain(s)
    ensures SubDomainOk(sd) && RenderSubDomain(sd) == s
  {
    if IsAtom(s) {
      sd := DomainRef(s);
    } else {
      var ps := DelimitedParse(Square, s);
      sd := DomainLiteral(ps);
    }
  }

  /** A string joined around one character splits back into its parts. */
  lemma JoinParts(a: string, c: char, b: string)
    ensures var s := a + [c] + b;
      |s| == |a| + 1 + |b| && s[..|a|] == a && s[|a|] == c && s[|a| + 1..] == b
  {
    var s := a + [c] + b;
    assert s[..|a|] == a;
    assert s[|a| + 1..] == b;
  }

  lemma {:induction false} LocalPartRender(ws: seq<Word>)
    requires |ws| > 0 && forall i :: 0 <= i < |ws| ==> WordOk(ws[i])
    ensures IsLocalPart(RenderLocalPart(ws)) && |RenderLocalPart(ws)| > 0
  {
    WordRender(ws[0]);
    if |ws| > 1 {
      var first, rest := RenderWord(ws[0]), RenderLocalPart(ws[1..]);
      assert forall i :: 0 <= i < |ws[1..]| ==> WordOk(ws[1..][i]) by {
        forall i | 0 <= i < |ws[1..]| ensures WordOk(ws[1..][i]) {
          assert ws[1..][i] == ws[i + 1];
        }
      }
      LocalPartRender(ws[1..]);
      assert RenderLocalPart(ws) == first + ['.'] + rest;
      JoinParts(first, '.', rest);
    }
  }

  lemma {:induction false} LocalPartParse(s: string) returns (ws: seq<Word>)
    requires IsLocalPart(s)
    ensures |ws| > 0 && (forall i :: 0 <= i < |ws| ==> WordOk(ws[i])) && RenderLocalPart(ws) == s
    decreases |s|
  {
    if IsWord(s) {
      var w := WordParse(s);
      ws := [w];
    } else {
      var i :| 0 < i < |s| && s[i] == '.' && IsWord(s[..i]) && IsLocalPart(s[i + 1..]);
      var w := WordParse(s[..i]);
      var rest := LocalPartParse(s[i + 1..]);
      ws := [w] + rest;
      assert ws[0] == w && ws[1..] == rest && |ws| >= 2;
      forall m | 0 <= m < |ws| ensures WordOk(ws[m]) {
        if m > 0 { assert ws[m] == rest[m - 1]; }
      }
      assert RenderLocalPart(ws) == RenderWord(w) + ['.'] + RenderLocalPart(rest);
      SplitAround(s, i);
    }
  }

  lemma {:induction false} DomainRender(ds: seq<SubDomain>)
    requires |ds| > 0 && forall i :: 0 <= i < |ds| ==> SubDomainOk(ds[i])
    ensures IsDomain(RenderDomain(ds)) && |RenderDomain(ds)| > 0
  {
    SubDomainRender(ds[0]);
    if |ds| > 1 {
      var first, rest := RenderSubDomain(ds[0]), RenderDomain(ds[1..]);
      assert forall i :: 0 <= i < |ds[1..]| ==> SubDomainOk(ds[1..][i]) by {
        forall i | 0 <= i < |ds[1..]| ensures SubDomainOk(ds[1..][i]) {
          assert ds[1..][i] == ds[i + 1];
        }
      }
      DomainRender(ds[1..]);
      assert RenderDomain(ds) == first + ['.'] + rest;
      JoinParts(first, '.', rest);
    }
  }

  lemma {:induction false} DomainParse(s: string) returns (ds: seq<SubDomain>)
    requires IsDomain(s)
    ensures |ds| > 0 && (forall i :: 0 <= i < |ds| ==> SubDomainOk(ds[i])) && RenderDomain(ds) == s
    decreases |s|
  {
    if IsSubDomain(s) {
      var sd := SubDomainParse(s);
      ds := [sd];
    } else {
      var i :| 0 < i < |s| && s[i] == '.' && IsSubDomain(s[..i]) && IsDomain(s[i + 1..]);
      var sd := SubDomainParse(s[..i]);
      var rest := DomainParse(s[i + 1..]);
      ds := [sd] + rest;
      assert ds[0] == sd && ds[1..] == rest && |ds| >= 2;
      forall m | 0 <= m < |ds| ensures SubDomainOk(ds[m]) {
        if m > 0 { assert ds[m] == rest[m - 1]; }
      }
      assert RenderDomain(ds) == RenderSubDomain(sd) + ['.'] + RenderDomain(rest);
      SplitAround(s, i);
    }
  }

  /** Soundness: the text of every well-formed address is accepted. */
  lemma AddressAccepted(a: AddrSpec)
    requires WellFormed(a)
    ensures IsEmail(Render(a))
  {
    LocalPartRender(a.localPart);
    DomainRender(a.domain);
    var local, domain := RenderLocalPart(a.localPart), RenderDomain(a.domain);
    assert Render(a) == local + ['@'] + domain;
    JoinParts(local, '@', domain);
    assert IsLocalPart(Render(a)[..|local|]) && IsDomain(Render(a)[|local| + 1..]);
  }

  /** Completeness: every accepted string is the text of a well-formed
      address, so it is a local part, an '@' and a domain. */
  lemma AcceptedIsAddress(s: string) returns (a: AddrSpec)
    requires IsEmail(s)
    ensures WellFormed(a) && Render(a) == s
  {
    var i :| 0 <= i < |s| && s[i] == '@' && IsLocalPart(s[..i]) && IsDomain(s[i + 1..]);
    var ws := LocalPartParse(s[..i]);
    var ds := DomainParse(s[i + 1..]);
    a := AddrSpec(ws, ds);
    SplitAround(s, i);
  }

  /** The e-mail pattern accepts exactly the texts of well-formed
      RFC 822 addresses. */
  lemma EmailIsAddrSpec(s: string)
    ensures IsEmail(s) <==> exists a :: WellFormed(a) && Render(a) == s
  {
    if IsEmail(s) {
      var a := AcceptedIsAddress(s);
    }
    if exists a :: WellFormed(a) && Render(a) == s {
      var a :| WellFormed(a) && Render(a) == s;
      AddressAccepted(a);
    }
  }

  /** 'foo' has no '@' and is rejected; 'foo@bar.com' is accepted. */
  lemma EmailSamples()
    ensures !IsEmail("foo")
    ensures IsEmail("foo@bar.com")
  {
    assert !('@' in "foo");
    var a := AddrSpec([AtomWord("foo")], [DomainRef("bar"), DomainRef("com")]);
    assert IsAtom("foo") && IsAtom("bar") && IsAtom("com");
    assert RenderDomain(a.domain) == "bar.com";
    assert Render(a) == "foo@bar.com";
    AddressAccepted(a);
  }

  // ===================================================================
  // URL: an http or https scheme in any case, host labels, a top-level
  // domain, an optional port and an optional path
  // ===================================================================

  /** A letter, in either case (the pattern carries the i flag). */
  predicate Letter(c: char) {
    'a' <= c <= 'z' || 'A' <= c <= 'Z'
  }

  predicate Digit(c: char) {
    '0' <= c <= '9'
  }

  predicate Alnum(c: char) {
    Letter(c) || Digit(c)
  }

  predicate HostSeparator(c: char) {
    c == '-' || c == '.'
  }

  /** One host label: a non-empty run of letters and digits. */
  predicate AlnumRun(s: string) {
    |s| > 0 && forall i :: 0 <= i < |s| ==> Alnum(s[i])
  }

  /** Host labels: labels joined by single dashes or dots. */
  predicate Labels(s: string)
    decreases |s|
  {
    AlnumRun(s)
    || exists i :: 0 < i < |s| && HostSeparator(s[i]) && AlnumRun(s[..i]) && Labels(s[i + 1..])
  }

  /** The top-level domain after its dot: two to five letters. */
  predicate TopLevel(s: string) {
    2 <= |s| <= 5 && forall i :: 0 <= i < |s| ==> Letter(s[i])
  }

  /** A port: a colon and one to five digits. */
  predicate Port(s: string) {
    2 <= |s| <= 6 && s[0] == ':' && forall i :: 1 <= i < |s| ==> Digit(s[i])
  }

  /** A path: a slash, then any characters up to the end of the line. */
  predicate Path(s: string) {
    |s| > 0 && s[0] == '/' && forall i :: 0 <= i < |s| ==> s[i] != '\n'
  }

  /** An optional port, then an optional path. */
  predicate PortAndPath(s: string) {
    s == [] || Port(s) || Path(s)
    || exists k :: 0 < k < |s| && Port(s[..k]) && Path(s[k..])
  }

  /** Everything after the scheme and "://". */
  predicate HostPortPath(t: string) {
    exists i, j :: 0 < i < j <= |t| && Labels(t[..i]) && t[i] == '.' && TopLevel(t[i + 1..j]) && PortAndPath(t[j..])
  }

  /** `c` is the lower-case character `lower` in either case. */
  predicate SameIgnoringCase(c: char, lower: char) {
    c == lower || ('a' <= lower <= 'z' && c as int == lower as int - 32)
  }

  predicate StartsWithIgnoringCase(s: string, prefix: string) {
    |prefix| <= |s| && forall i :: 0 <= i < |prefix| ==> SameIgnoringCase(s[i], prefix[i])
  }

  /** The URL pattern matched against the whole value. */
  predicate IsUrl(s: string) {
    (StartsWithIgnoringCase(s, "http://") && HostPortPath(s[7..]))
    || (StartsWithIgnoringCase(s, "https://") && HostPortPath(s[8..]))
  }

  /** The URL pattern as Ruby applies it: `^` and `$` are line anchors
      and the match is searched for anywhere, so the value is accepted
      when any one of its lines matches. */
  predicate IsUrlAsWritten(s: string)
    decreases |s|
  {
    var k := FirstIndexOf(s, {'\n'});
    IsUrl(s[..k]) || (k < |s| && IsUrlAsWritten(s[k + 1..]))
  }

  /** A dash or dot separated run of labels, described by its shape:
      alphanumeric at both ends, only alphanumerics and separators, and
      every separator followed by an alphanumeric (no two in a row). */
  predicate LabelsShape(s: string) {
    && |s| > 0 && Alnum(s[0]) && Alnum(s[|s| - 1])
    && (forall i :: 0 <= i < |s| ==> Alnum(s[i]) || HostSeparator(s[i]))
    && (forall i :: 0 <= i < |s| - 1 && HostSeparator(s[i]) ==> Alnum(s[i + 1]))
  }

  lemma {:induction false} LabelsHaveShape(s: string)
    requires Labels(s)
    ensures LabelsShape(s)
    decreases |s|
  {
    if !AlnumRun(s) {
      var i :| 0 < i < |s| && HostSeparator(s[i]) && AlnumRun(s[..i]) && Labels(s[i + 1..]);
      var rest := s[i + 1..];
      LabelsHaveShape(rest);
      assert s[0] == s[..i][0];
      assert s[|s| - 1] == rest[|rest| - 1];
      forall j | 0 <= j < |s| ensures Alnum(s[j]) || HostSeparator(s[j]) {
        if j < i { assert s[j] == s[..i][j]; }
        else if j > i { assert s[j] == rest[j - i - 1]; }
      }
      assert forall j :: 0 <= j < i ==> Alnum(s[j]) by {
        forall j | 0 <= j < i ensures Alnum(s[j]) {
          assert s[j] == s[..i][j];
        }
      }
      forall j | 0 <= j < |s| - 1 && HostSeparator(s[j]) ensures Alnum(s[j + 1]) {
        if j == i {
          assert s[j + 1] == rest[0];
        } else if j > i {
          assert s[j] == rest[j - i - 1] && s[j + 1] == rest[j - i];
        }
      }
    }
  }

  /** What follows a separator of a well-shaped run is well shaped. */
  lemma ShapeAfterSeparator(s: string, i: nat)
    requires LabelsShape(s) && i < |s| && HostSeparator(s[i])
    ensures i + 1 < |s|
    ensures LabelsShape(s[i + 1..])
  {
    var rest := s[i + 1..];
    assert rest[0] == s[i + 1];
    assert rest[|rest| - 1] == s[|s| - 1];
    forall j | 0 <= j < |rest| ensures Alnum(rest[j]) || HostSeparator(rest[j]) {
      assert rest[j] == s[j + i + 1];
    }
    forall j | 0 <= j < |rest| - 1 && HostSeparator(rest[j]) ensures Alnum(rest[j + 1]) {
      assert rest[j] == s[j + i + 1] && rest[j + 1] == s[j + i + 2];
    }
  }

  /** The part of a well-shaped run before its first separator is one label. */
  lemma ShapeBeforeSeparator(s: string, i: nat)
    requires LabelsShape(s) && i <= |s|
    requires forall j :: 0 <= j < i ==> s[j] !in {'-', '.'}
    requires i > 0
    ensures AlnumRun(s[..i])
  {
    forall j | 0 <= j < i ensures Alnum(s[..i][j]) {
      assert s[..i][j] == s[j];
    }
  }

  lemma {:induction false} ShapeIsLabels(s: string)
    requires LabelsShape(s)
    ensures Labels(s)
    decreases |s|
  {
    var i := FirstIndexOf(s, {'-', '.'});
    if i == |s| {
      ShapeBeforeSeparator(s, i);
      assert s[..i] == s;
    } else {
      assert i > 0 && HostSeparator(s[i]);
      ShapeBeforeSeparator(s, i);
      ShapeAfterSeparator(s, i);
      ShapeIsLabels(s[i + 1..]);
    }
  }

  /** The recursive host grammar and its shape describe the same strings. */
  lemma LabelsIffShape(s: string)
    ensures Labels(s) <==> LabelsShape(s)
  {
    if Labels(s) { LabelsHaveShape(s); }
    if LabelsShape(s) { ShapeIsLabels(s); }
  }

  /** No string the port-and-path part matches holds a newline. */
  lemma PortAndPathSingleLine(r: string)
    requires PortAndPath(r)
    ensures forall m :: 0 <= m < |r| ==> r[m] != '\n'
  {
    if !(r == [] || Port(r) || Path(r)) {
      var k :| 0 < k < |r| && Port(r[..k]) && Path(r[k..]);
      forall m | 0 <= m < |r| ensures r[m] != '\n' {
        if m < k { assert r[m] == r[..k][m]; }
        else { assert r[m] == r[k..][m - k]; }
      }
    }
  }

  /** No string the host, port and path part matches holds a newline. */
  lemma HostPortPathSingleLine(t: string)
    requires HostPortPath(t)
    ensures forall m :: 0 <= m < |t| ==> t[m] != '\n'
  {
    var i, j :| 0 < i < j <= |t| && Labels(t[..i]) && t[i] == '.' && TopLevel(t[i + 1..j]) && PortAndPath(t[j..]);
    LabelsHaveShape(t[..i]);
    PortAndPathSingleLine(t[j..]);
    forall m | 0 <= m < |t| ensures t[m] != '\n' {
      if m < i {
        assert t[m] == t[..i][m];
      } else if i < m < j {
        assert t[m] == t[i + 1..j][m - i - 1];
      } else if m >= j {
        assert t[m] == t[j..][m - j];
      }
    }
  }

  /** A character matching a scheme character in either case is no newline. */
  lemma SchemeSingleLine(s: string, scheme: string)
    requires StartsWithIgnoringCase(s, scheme)
    requires forall m :: 0 <= m < |scheme| ==> scheme[m] == ':' || scheme[m] == '/' || 'a' <= scheme[m] <= 'z'
    ensures forall m :: 0 <= m < |scheme| ==> s[m] != '\n'
  {
    forall m | 0 <= m < |scheme| ensures s[m] != '\n' {
      assert SameIgnoringCase(s[m], scheme[m]);
    }
  }

  /** An accepted URL starts with "http://" or "https://" in any case,
      and no part of the pattern matches a newline. */
  lemma AcceptedUrlShape(s: string)
    requires IsUrl(s)
    ensures StartsWithIgnoringCase(s, "http://") || StartsWithIgnoringCase(s, "https://")
    ensures forall i :: 0 <= i < |s| ==> s[i] != '\n'
  {
    var scheme := if StartsWithIgnoringCase(s, "http://") && HostPortPath(s[7..]) then "http://" else "https://";
    var n := |scheme|;
    SchemeSingleLine(s, scheme);
    HostPortPathSingleLine(s[n..]);
    forall m | n <= m < |s| ensures s[m] != '\n' {
      assert s[m] == s[n..][m - n];
    }
  }

  /** On a value without a newline the line-anchored search and the
      whole-value match agree. */
  lemma AsWrittenAgreesOnOneLine(s: string)
    requires forall i :: 0 <= i < |s| ==> s[i] != '\n'
    ensures IsUrlAsWritten(s) <==> IsUrl(s)
  {
    var k := FirstIndexOf(s, {'\n'});
    assert k == |s|;
    assert s[..k] == s;
  }

  /** 'foo' is rejected and 'http://foo.com' accepted. */
  lemma UrlSamples()
    ensures !IsUrl("foo")
    ensures IsUrl("http://foo.com")
  {
    var s := "http://foo.com";
    var t := s[7..];
    assert s[..7] == "http://";
    assert t == "foo.com";
    assert t[..3] == "foo" && AlnumRun("foo");
    assert t[4..7] == "com" && TopLevel("com");
    assert t[7..] == [];
    assert HostPortPath(t);
  }

  /** The line-anchored search looks at the first line, then at the rest. */
  lemma {:induction false} AsWrittenOnLines(first: string, rest: string)
    requires forall j :: 0 <= j < |first| ==> first[j] != '\n'
    ensures IsUrlAsWritten(first + ['\n'] + rest) <==> IsUrl(first) || IsUrlAsWritten(rest)
  {
    var s := first + ['\n'] + rest;
    var k := FirstIndexOf(s, {'\n'});
    assert s[|first|] == '\n';
    forall j | 0 <= j < |first| ensures s[j] !in {'\n'} {
      assert s[j] == first[j];
    }
    assert k == |first|;
    assert s[..k] == first;
    assert s[k + 1..] == rest;
  }

  /** A second line that is a URL gets any first line through the
      line-anchored search, while the whole-value match rejects it. */
  lemma AsWrittenAcceptsInjectedLine()
    ensures IsUrlAsWritten("javascript:alert(1)\nhttp://foo.com")
    ensures !IsUrl("javascript:alert(1)\nhttp://foo.com")
  {
    var first, second := "javascript:alert(1)", "http://foo.com";
    var s := first + ['\n'] + second;
    assert s == "javascript:alert(1)\nhttp://foo.com";
    assert !SameIgnoringCase(s[0], "http://"[0]);
    assert !SameIgnoringCase(s[0], "https://"[0]);
    assert forall j :: 0 <= j < |first| ==> first[j] != '\n';
    assert forall j :: 0 <= j < |second| ==> second[j] != '\n';
    UrlSamples();
    AsWrittenAgreesOnOneLine(second);
    AsWrittenOnLines(first, second);
  }
}
