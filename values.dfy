/** Ruby values and the few standard-library behaviours of Ruby and Rails
    that the comment plugin relies on: truthiness, `blank?`, hash lookup
    and `Hash#merge`. */
module Values {

  datatype Option<+T> = None | Some(value: T)

  /** The Ruby exceptions the modelled code can raise. */
  datatype RubyError =
    | ArgumentError   // raised by has_comments for a bad options argument
    | NoMethodError   // a method called on nil
    | RecordInvalid   // raised by save! when validation fails

  datatype Result<+T> = Ok(value: T) | Err(error: RubyError)

  datatype Outcome = Pass | Fail(error: RubyError)

  /** The Ruby values that flow through options, setters and Akismet
      payloads. A Proc is named by an identifier; what it computes is
      supplied by the host (see HasComments.Host). */
  datatype RValue =
    | RNil
    | RBool(b: bool)
    | RInt(i: int)
    | RStr(s: string)
    | RSymbol(name: string)
    | RProc(id: nat)

  /** Ruby truthiness: only nil and false are false. */
  predicate Truthy(v: RValue) {
    v != RNil && v != RBool(false)
  }

  /** The characters Ruby 1.8's `\s` matches: space, tab, newline,
      vertical tab, form feed and carriage return. */
  predicate IsSpace(c: char) {
    c == ' ' || 9 <= c as int <= 13
  }

  /** Rails' `blank?` for an optional string: nil, or nothing but
      white space. */
  predicate Blank(s: Option<string>) {
    s.None? || forall i :: 0 <= i < |s.value| ==> IsSpace(s.value[i])
  }

  function TextValue(s: Option<string>): RValue {
    match s
    case None => RNil
    case Some(t) => RStr(t)
  }

  function IntValue(n: Option<int>): RValue {
    match n
    case None => RNil
    case Some(i) => RInt(i)
  }

  /** `hash[key]`: nil for a missing key. */
  function Lookup(h: map<string, RValue>, key: string): (v: RValue)
    ensures key in h ==> v == h[key]
    ensures key !in h ==> v == RNil
  {
    if key in h then h[key] else RNil
  }

  /** Ruby's `base.merge(other)`: the keys of both, and on a key both
      hold, the value from `other`. */
  function Merge(base: map<string, RValue>, other: map<string, RValue>): (r: map<string, RValue>)
    ensures r.Keys == base.Keys + other.Keys
    ensures forall k :: k in other ==> r[k] == other[k]
    ensures forall k :: k in base && k !in other ==> r[k] == base[k]
  {
    base + other
  }
}
