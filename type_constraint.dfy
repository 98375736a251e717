/** The type rule: an expression such as `~ image/png image/gif` names a
    matching mode and a list of types, and the rule holds for a file whose
    MIME type matches all of them (`=`, `~`) or none of them (`!=`, `!~`). */
module TypeConstraints {
  import opened Wrappers
  import opened Php
  import opened Files

  /** The four matching modes. */
  datatype TypeMode = Equal | NotEqual | Contains | ContainsNot

  /** The operator each mode is written as. */
  function Symbol(m: TypeMode): string {
    match m
    case Equal => "="
    case NotEqual => "!="
    case Contains => "~"
    case ContainsNot => "!~"
  }

  /** The mode an operator names, or None when it names none of the four. */
  function ModeOf(op: string): (r: Option<TypeMode>)
    ensures r.Some? ==> Symbol(r.value) == op
    ensures r.None? ==> forall m :: Symbol(m) != op
  {
    if op == "=" then Some(Equal)
    else if op == "!=" then Some(NotEqual)
    else if op == "~" then Some(Contains)
    else if op == "!~" then Some(ContainsNot)
    else None
  }

  lemma SymbolFacts(m: TypeMode)
    ensures ' ' !in Symbol(m) && ModeOf(Symbol(m)) == Some(m)
  {
    match m
    case Equal =>
    case NotEqual =>
    case Contains =>
    case ContainsNot =>
  }

  /** The test one listed type puts to a MIME type: equality for `=`,
      inequality for `!=`, occurrence as a substring for `~` and absence for
      `!~`. */
  predicate Accepts(m: TypeMode, mime: string, t: string) {
    match m
    case Equal => mime == t
    case NotEqual => mime != t
    case Contains => Php.Contains(mime, t)
    case ContainsNot => !Php.Contains(mime, t)
  }

  /** Whether the rule holds for a MIME type: with no mode set it always
      does; otherwise every listed type passes the mode's test. */
  predicate Matches(mode: Option<TypeMode>, types: seq<string>, mime: string) {
    mode.None? || forall i :: 0 <= i < |types| ==> Accepts(mode.value, mime, types[i])
  }

  /** The capture groups of `^(=|!=|~|!~) (.+)$` on `s`: the operator and
      the rest, or None when `s` does not match. */
  function Captures(s: string): (r: Option<(string, string)>)
    ensures r.Some? ==> ModeOf(r.value.0).Some? && |r.value.1| > 0 && '\n' !in r.value.1
    ensures r.Some? ==> AnchoredSubject(s) == r.value.0 + " " + r.value.1
  {
    match SplitFirst(' ', AnchoredSubject(s))
    case None => None
    case Some((op, rest)) =>
      if ModeOf(op).Some? && |rest| > 0 && '\n' !in rest then Some((op, rest)) else None
  }

  /** The mode and types an expression sets, or None when it does not match
      the pattern: the types are the rest split at every single space. */
  function ParseExpression(s: string): (r: Option<(TypeMode, seq<string>)>)
    ensures r.Some? <==> Captures(s).Some?
    ensures r.Some? ==> Captures(s).value.0 == Symbol(r.value.0)
    ensures r.Some? ==> |r.value.1| >= 1 && Implode(' ', r.value.1) == Captures(s).value.1
  {
    match Captures(s)
    case None => None
    case Some((op, rest)) =>
      ImplodeExplode(' ', rest);
      Some((ModeOf(op).value, Explode(' ', rest)))
  }

  /** The captures of an expression whose anchored subject is an operator,
      a space and a non-empty, newline-free rest. */
  lemma CapturesOf(s: string, m: TypeMode, rest: string)
    requires |rest| > 0 && '\n' !in rest
    requires AnchoredSubject(s) == Symbol(m) + " " + rest
    ensures Captures(s) == Some((Symbol(m), rest))
  {
    SymbolFacts(m);
    SplitFirstOf(' ', Symbol(m), rest);
  }

  /** Writing a mode and a list of space- and newline-free types joined by
      single spaces, and parsing it back (with or without one final
      newline), gives that mode and that list. The joined list must not be
      empty, which rules out only the list holding one empty type. */
  lemma ParseRoundTrip(m: TypeMode, types: seq<string>)
    requires |types| >= 1 && types != [""]
    requires forall i :: 0 <= i < |types| ==> ' ' !in types[i] && '\n' !in types[i]
    ensures ParseExpression(Symbol(m) + " " + Implode(' ', types)) == Some((m, types))
    ensures ParseExpression(Symbol(m) + " " + Implode(' ', types) + "\n") == Some((m, types))
  {
    var rest := Implode(' ', types);
    ImplodeExcludes(' ', types, '\n');
    assert |rest| > 0 by {
      if |types| == 1 {
        assert rest == types[0] != "";
      }
    }
    var s := Symbol(m) + " " + rest;
    assert s[|s| - 1] == rest[|rest| - 1];
    AnchoredSubjectOf(s);
    SymbolFacts(m);
    CapturesOf(s, m, rest);
    CapturesOf(s + "\n", m, rest);
    ExplodeImplode(' ', types);
  }

  /** The type rule of a file upload. */
  class TypeConstraint {
    var mode: Option<TypeMode>
    var types: seq<string>

    constructor ()
      ensures mode == None && types == []
    {
      mode := None;
      types := [];
    }

    /** Stores the mode an operator names; any other string is refused and
        the mode kept. */
    method SetMode(op: string) returns (r: Result<(), string>)
      modifies this`mode
      ensures r.Success? <==> op in {"=", "!=", "~", "!~"}
      ensures r.Success? ==> mode.Some? && Symbol(mode.value) == op
      ensures r.Failure? ==> mode == old(mode)
      ensures r.Failure? ==> r.error == "The mode \"" + op + "\" is not valid"
    {
      match ModeOf(op)
      case Some(m) =>
        mode := Some(m);
        r := Success(());
      case None =>
        assert Symbol(Equal) != op && Symbol(NotEqual) != op;
        assert Symbol(Contains) != op && Symbol(ContainsNot) != op;
        r := Failure("The mode \"" + op + "\" is not valid");
    }

    method SetTypes(ts: seq<string>)
      modifies this`types
      ensures types == ts
    {
      types := ts;
    }

    /** Sets the mode and types an expression names; an expression that
        does not match leaves both as they were. */
    method Parse(options: string)
      modifies this`mode, this`types
      ensures ParseExpression(options).Some? ==>
        mode == Some(ParseExpression(options).value.0) && types == ParseExpression(options).value.1
      ensures ParseExpression(options).None? ==> mode == old(mode) && types == old(types)
    {
      match Captures(options)
      case None =>
      case Some((op, rest)) =>
        var _ := SetMode(op);
        SetTypes(Explode(' ', rest));
    }

    /** Runs the mode's test over the listed types in order and stops at the
        first type that fails it. */
    method Holds(file: File) returns (r: bool)
      ensures r == Matches(mode, types, file.mimeType)
    {
      r := true;
      if mode.Some? {
        var m := mode.value;
        var i := 0;
        while i < |types|
          invariant 0 <= i <= |types|
          invariant forall j :: 0 <= j < i ==> Accepts(m, file.mimeType, types[j])
        {
          if !Accepts(m, file.mimeType, types[i]) {
            r := false;
            break;
          }
          i := i + 1;
        }
      }
    }
  }

  /** The rule fails open: with no mode, or with an empty list, it holds
      for every file. */
  lemma FailsOpen(mode: Option<TypeMode>, types: seq<string>, mime: string)
    requires mode.None? || types == []
    ensures Matches(mode, types, mime)
  {
  }

  /** `=` holds exactly when the MIME type equals every listed type. */
  lemma EqualMeansAllSame(types: seq<string>, mime: string)
    ensures Matches(Some(Equal), types, mime) <==> (forall t :: t in types ==> t == mime)
  {
    if forall t :: t in types ==> t == mime {
      forall i | 0 <= i < |types|
        ensures Accepts(Equal, mime, types[i])
      {
        assert types[i] in types;
      }
    } else {
      var t :| t in types && t != mime;
      var i :| 0 <= i < |types| && types[i] == t;
      assert !Accepts(Equal, mime, types[i]);
    }
  }

  /** `=` over two different types holds for no file at all. */
  lemma EqualTwoDistinctNeverHolds(types: seq<string>, mime: string, i: int, j: int)
    requires 0 <= i < |types| && 0 <= j < |types| && types[i] != types[j]
    ensures !Matches(Some(Equal), types, mime)
  {
  }

  /** `!=` holds exactly when the MIME type is not listed. */
  lemma NotEqualMeansUnlisted(types: seq<string>, mime: string)
    ensures Matches(Some(NotEqual), types, mime) <==> mime !in types
  {
    if mime in types {
      var i :| 0 <= i < |types| && types[i] == mime;
      assert !Accepts(NotEqual, mime, types[i]);
    }
  }

  /** `~` holds exactly when every listed type occurs in the MIME type at
      some offset. */
  lemma ContainsMeansOccurs(types: seq<string>, mime: string)
    ensures Matches(Some(Contains), types, mime) <==>
      (forall i :: 0 <= i < |types| ==> Occurs(mime, types[i]))
  {
    forall i | 0 <= i < |types|
      ensures Accepts(Contains, mime, types[i]) <==> Occurs(mime, types[i])
    {
      ContainsIffOccurs(mime, types[i]);
    }
  }

  /** `!~` holds exactly when no listed type occurs in the MIME type. */
  lemma ContainsNotMeansNoOccurrence(types: seq<string>, mime: string)
    ensures Matches(Some(ContainsNot), types, mime) <==>
      (forall i :: 0 <= i < |types| ==> !Occurs(mime, types[i]))
  {
    forall i | 0 <= i < |types|
      ensures Accepts(ContainsNot, mime, types[i]) <==> !Occurs(mime, types[i])
    {
      ContainsIffOccurs(mime, types[i]);
    }
  }

  /** `~ image` and `!~ image` both parse to a one-type list. */
  lemma ImagePrefixParses()
    ensures ParseExpression("~ image") == Some((Contains, ["image"]))
    ensures ParseExpression("!~ image") == Some((ContainsNot, ["image"]))
  {
    var types := ["image"];
    assert Implode(' ', types) == "image";
    assert Symbol(Contains) + " " + Implode(' ', types) == "~ image";
    assert Symbol(ContainsNot) + " " + Implode(' ', types) == "!~ image";
    ParseRoundTrip(Contains, types);
    ParseRoundTrip(ContainsNot, types);
  }

  /** `~ image` lets a JPEG through and `!~ image` turns it away. */
  lemma ImagePrefixMatches()
    ensures Matches(Some(Contains), ["image"], "image/jpeg")
    ensures !Matches(Some(ContainsNot), ["image"], "image/jpeg")
  {
    var types := ["image"];
    assert "image/jpeg"[..|types[0]|] == types[0];
    assert Php.Contains("image/jpeg", types[0]);
    assert Accepts(Contains, "image/jpeg", types[0]);
    assert !Accepts(ContainsNot, "image/jpeg", types[0]);
  }
}
