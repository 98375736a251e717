/** The size rule: an expression such as `< 1024` names a comparison and a
    threshold in bytes, and the rule holds for a file whose size compares
    that way with the threshold. */
module SizeConstraints {
  import opened Wrappers
  import opened Php
  import opened Files

  /** The five comparison modes. */
  datatype SizeMode = Less | Equal | Greater | LessEqual | GreaterEqual

  /** The operator each mode is written as. */
  function Symbol(m: SizeMode): string {
    match m
    case Less => "<"
    case Equal => "="
    case Greater => ">"
    case LessEqual => "<="
    case GreaterEqual => ">="
  }

  /** The mode an operator names, or None when it names none of the five. */
  function ModeOf(op: string): (r: Option<SizeMode>)
    ensures r.Some? ==> Symbol(r.value) == op
    ensures r.None? ==> forall m :: Symbol(m) != op
  {
    if op == "<" then Some(Less)
    else if op == "=" then Some(Equal)
    else if op == ">" then Some(Greater)
    else if op == "<=" then Some(LessEqual)
    else if op == ">=" then Some(GreaterEqual)
    else None
  }

  /** The comparison of a file size `x` against a threshold `b` that a mode
      names; `<` and `>` are strict. */
  predicate Compare(m: SizeMode, x: real, b: real) {
    match m
    case Less => x < b
    case Equal => x == b
    case Greater => x > b
    case LessEqual => x <= b
    case GreaterEqual => x >= b
  }

  /** The comparison `holds` performs: against the threshold when one is set,
      and otherwise against PHP's null, which compares by truthiness (a size
      is then "greater" exactly when it is non-zero). */
  predicate Satisfies(m: SizeMode, x: int, bound: Option<real>) {
    match bound
    case Some(b) => Compare(m, x as real, b)
    case None => Compare(m, if x != 0 then 1.0 else 0.0, 0.0)
  }

  function Sign(d: real): int {
    if d < 0.0 then -1 else if d == 0.0 then 0 else 1
  }

  /** The signs of `x - b` each mode accepts. */
  function AcceptedSigns(m: SizeMode): set<int> {
    match m
    case Less => {-1}
    case Equal => {0}
    case Greater => {1}
    case LessEqual => {-1, 0}
    case GreaterEqual => {0, 1}
  }

  /** The capture groups of `^(<|=|>|<=|>=) ([0-9]+)$` on `s`: the
      operator and the digits, or None when `s` does not match. */
  function Captures(s: string): (r: Option<(string, string)>)
    ensures r.Some? ==> ModeOf(r.value.0).Some? && |r.value.1| > 0 && AllDigits(r.value.1)
    ensures r.Some? ==> AnchoredSubject(s) == r.value.0 + " " + r.value.1
  {
    match SplitFirst(' ', AnchoredSubject(s))
    case None => None
    case Some((op, digits)) =>
      if ModeOf(op).Some? && |digits| > 0 && AllDigits(digits) then Some((op, digits)) else None
  }

  /** The mode and threshold an expression sets, or None when it does not
      match the pattern. */
  function ParseExpression(s: string): (r: Option<(SizeMode, nat)>)
    ensures r.Some? <==> Captures(s).Some?
    ensures r.Some? ==> Captures(s).value.0 == Symbol(r.value.0)
    ensures r.Some? ==> r.value.1 == DigitsValue(Captures(s).value.1)
  {
    match Captures(s)
    case None => None
    case Some((op, digits)) => Some((ModeOf(op).value, DigitsValue(digits)))
  }

  lemma SymbolFacts(m: SizeMode)
    ensures ' ' !in Symbol(m) && ModeOf(Symbol(m)) == Some(m)
  {
    match m
    case Less =>
    case Equal =>
    case Greater =>
    case LessEqual =>
    case GreaterEqual =>
  }

  /** The captures of an expression whose anchored subject is an operator,
      a space and digits. */
  lemma CapturesOf(s: string, m: SizeMode, digits: string)
    requires |digits| > 0 && AllDigits(digits)
    requires AnchoredSubject(s) == Symbol(m) + " " + digits
    ensures Captures(s) == Some((Symbol(m), digits))
  {
    SymbolFacts(m);
    SplitFirstOf(' ', Symbol(m), digits);
  }

  /** Every well-formed expression is accepted, with or without one final
      newline, and yields its operator and the value of its digits; leading
      zeros are allowed. */
  lemma ParseComplete(m: SizeMode, digits: string)
    requires |digits| > 0 && AllDigits(digits)
    ensures ParseExpression(Symbol(m) + " " + digits) == Some((m, DigitsValue(digits)))
    ensures ParseExpression(Symbol(m) + " " + digits + "\n") == Some((m, DigitsValue(digits)))
  {
    var s := Symbol(m) + " " + digits;
    assert s[|s| - 1] == digits[|digits| - 1];
    AnchoredSubjectOf(s);
    SymbolFacts(m);
    CapturesOf(s, m, digits);
    CapturesOf(s + "\n", m, digits);
  }

  /** Writing a mode and a threshold in decimal and parsing it back gives
      that mode and threshold. */
  lemma ParseRoundTrip(m: SizeMode, n: nat)
    ensures ParseExpression(Symbol(m) + " " + Decimal(n)) == Some((m, n))
  {
    ParseComplete(m, Decimal(n));
    DecimalValue(n);
  }

  /** The size rule of a file upload. */
  class SizeConstraint {
    var mode: Option<SizeMode>
    /** The threshold in bytes, a number PHP accepted as numeric; None is
        PHP's null before any size is set. */
    var size: Option<real>

    constructor ()
      ensures mode == None && size == None
    {
      mode := None;
      size := None;
    }

    /** Stores a numeric, non-negative threshold; anything else is refused
        and the threshold kept. */
    method SetSize(v: Scalar) returns (r: Result<(), string>)
      modifies this`size
      ensures r.Success? <==> NumericValue(v).Some? && NumericValue(v).value >= 0.0
      ensures r.Success? ==> size == Some(NumericValue(v).value)
      ensures r.Failure? ==> size == old(size)
      ensures r.Failure? ==> r.error == "The size \"" + ToString(v) + "\" is not valid"
    {
      match NumericValue(v)
      case Some(n) =>
        if n >= 0.0 {
          size := Some(n);
          r := Success(());
        } else {
          r := Failure("The size \"" + ToString(v) + "\" is not valid");
        }
      case None =>
        r := Failure("The size \"" + ToString(v) + "\" is not valid");
    }

    /** Stores the mode an operator names; any other string is refused and
        the mode kept. */
    method SetMode(op: string) returns (r: Result<(), string>)
      modifies this`mode
      ensures r.Success? <==> op in {"<", "=", ">", "<=", ">="}
      ensures r.Success? ==> mode.Some? && Symbol(mode.value) == op
      ensures r.Failure? ==> mode == old(mode)
      ensures r.Failure? ==> r.error == "The mode \"" + op + "\" is not valid"
    {
      match ModeOf(op)
      case Some(m) =>
        mode := Some(m);
        r := Success(());
      case None =>
        assert Symbol(Less) != op && Symbol(Equal) != op && Symbol(Greater) != op;
        assert Symbol(LessEqual) != op && Symbol(GreaterEqual) != op;
        r := Failure("The mode \"" + op + "\" is not valid");
    }

    /** Sets the mode and threshold an expression names; an expression that
        does not match leaves both as they were. */
    method Parse(options: string)
      modifies this`mode, this`size
      ensures ParseExpression(options).Some? ==>
        mode == Some(ParseExpression(options).value.0) && size == Some(ParseExpression(options).value.1 as real)
      ensures ParseExpression(options).None? ==> mode == old(mode) && size == old(size)
    {
      match Captures(options)
      case None =>
      case Some((op, digits)) =>
        var m := ModeOf(op).value;
        var _ := SetMode(op);
        SymbolFacts(mode.value);
        assert mode == Some(m);
        NumericDigits(digits);
        var _ := SetSize(Str(digits));
    }

    /** Whether a file passes the rule. With no mode set it never does;
        otherwise the file's size compared with the threshold has a sign the
        mode accepts. With a mode and no size the size is compared with null,
        both as booleans: `=` and `<=` hold only for an empty file, `<`
        never, `>` for any non-empty file and `>=` always. */
    function Holds(file: File): (r: bool)
      reads this, file
      ensures mode.None? ==> !r
      ensures mode.Some? && size.Some? ==>
        (r <==> Sign(file.size as real - size.value) in AcceptedSigns(mode.value))
      ensures mode.Some? && size.None? ==>
        (r <==> match mode.value
                case Equal => file.size == 0
                case LessEqual => file.size == 0
                case Less => false
                case Greater => file.size != 0
                case GreaterEqual => true)
    {
      mode.Some? && Satisfies(mode.value, file.size, size)
    }
  }

  /** The digits `1024` read as the number 1024. */
  lemma DigitsOf1024()
    ensures AllDigits("1024") && DigitsValue("1024") == 1024
  {
    assert "1"[..0] == "";
    assert "10"[..1] == "1";
    assert "102"[..2] == "10";
    assert "1024"[..3] == "102";
  }

  /** The rule `< 1024` turns a file of exactly 1024 bytes away and lets a
      file of 1023 bytes through. */
  lemma {:induction false} StrictLessAtThreshold()
    ensures ParseExpression("< 1024") == Some((Less, 1024))
    ensures !Satisfies(Less, 1024, Some(1024.0)) && Satisfies(Less, 1023, Some(1024.0))
  {
    DigitsOf1024();
    assert "< 1024" == Symbol(Less) + " " + "1024";
    ParseComplete(Less, "1024");
  }
}
