/** The rules a file upload checks files against: size and type rules,
    created from an alias and an expression or handed over as objects. */
module Constraints {
  import opened Wrappers
  import opened Php
  import opened Files
  import SizeConstraints
  import TypeConstraints

  /** A rule object of either kind. */
  datatype Constraint =
    | SizeRule(size: SizeConstraints.SizeConstraint)
    | TypeRule(rule: TypeConstraints.TypeConstraint)

  /** The two kinds of rule, by `getConstraintType`. */
  datatype Kind = SizeKind | TypeKind

  function KindOf(c: Constraint): Kind {
    match c
    case SizeRule(_) => SizeKind
    case TypeRule(_) => TypeKind
  }

  function ObjectOf(c: Constraint): object {
    match c
    case SizeRule(s) => s
    case TypeRule(t) => t
  }

  /** The objects a list of rules keeps its state in. */
  function Objects(cs: seq<Constraint>): set<object> {
    set i | 0 <= i < |cs| :: ObjectOf(cs[i])
  }

  /** The objects rules keep their state in exist. */
  lemma ObjectsAllocated(cs: seq<Constraint>)
    ensures forall o :: o in Objects(cs) ==> allocated(o)
  {
  }

  /** Whether a rule holds for a file of the given size and MIME type, as
      its `holds` decides; the two are all of a file that a rule reads. */
  predicate Admits(c: Constraint, size: int, mime: string)
    reads ObjectOf(c)
  {
    match c
    case SizeRule(s) => s.mode.Some? && SizeConstraints.Satisfies(s.mode.value, size, s.size)
    case TypeRule(t) => TypeConstraints.Matches(t.mode, t.types, mime)
  }

  /** The same decision on the fields of a rule: a size rule without a mode
      holds for nothing. */
  predicate StateAdmits(s: RuleState, size: int, mime: string) {
    match s
    case SizeState(m, t) => m.Some? && SizeConstraints.Satisfies(m.value, size, t)
    case TypeState(m, ts) => TypeConstraints.Matches(m, ts, mime)
  }

  /** The verdict of every rule of a list on a file, in order. */
  function Verdicts(cs: seq<Constraint>, size: int, mime: string): (v: seq<bool>)
    reads Objects(cs)
    ensures |v| == |cs|
    ensures forall i :: 0 <= i < |cs| ==> v[i] == Admits(cs[i], size, mime)
  {
    if cs == [] then []
    else
      assert ObjectOf(cs[0]) in Objects(cs);
      assert Objects(cs[1..]) <= Objects(cs) by {
        forall o | o in Objects(cs[1..])
          ensures o in Objects(cs)
        {
          var i :| 0 <= i < |cs[1..]| && o == ObjectOf(cs[1..][i]);
          assert o == ObjectOf(cs[i + 1]);
        }
      }
      [Admits(cs[0], size, mime)] + Verdicts(cs[1..], size, mime)
  }

  /** The position of the first false verdict, or None when all are true. */
  function FirstFailing(v: seq<bool>): (r: Option<nat>)
    ensures r.Some? ==> r.value < |v| && !v[r.value] && forall j :: 0 <= j < r.value ==> v[j]
    ensures r.None? ==> forall j :: 0 <= j < |v| ==> v[j]
  {
    if v == [] then None
    else if !v[0] then Some(0)
    else match FirstFailing(v[1..])
      case None => None
      case Some(k) => Some(k + 1)
  }

  /** The first failing position is the only one with a false verdict and
      no false verdict before it. */
  lemma FirstFailingIs(v: seq<bool>, k: Option<nat>)
    requires k.Some? ==> k.value < |v| && !v[k.value]
    requires forall j :: 0 <= j < |v| && (k.None? || j < k.value) ==> v[j]
    ensures FirstFailing(v) == k
  {
  }

  /** Asks a rule whether it holds for a file. */
  method Holds(c: Constraint, file: File) returns (r: bool)
    ensures r == Admits(c, file.size, file.mimeType)
  {
    match c
    case SizeRule(s) =>
      r := s.Holds(file);
    case TypeRule(t) =>
      r := t.Holds(file);
  }

  /** The registered aliases. A class is found from an alias by upper-casing
      its first letter and appending `Constraint`, and PHP class names do
      not depend on case, so an alias is looked up lower-cased. */
  const Registry: map<string, Kind> := map["size" := SizeKind, "type" := TypeKind]

  /** The fields of a rule object. */
  datatype RuleState =
    | SizeState(sizeMode: Option<SizeConstraints.SizeMode>, threshold: Option<real>)
    | TypeState(typeMode: Option<TypeConstraints.TypeMode>, types: seq<string>)

  function StateOf(c: Constraint): RuleState
    reads ObjectOf(c)
  {
    match c
    case SizeRule(s) => SizeState(s.mode, s.size)
    case TypeRule(t) => TypeState(t.mode, t.types)
  }

  /** The fields a fresh rule of a kind has after parsing an expression: the
      mode and operands it names, or the initial ones when it does not match. */
  function ParsedState(k: Kind, options: string): RuleState {
    match k
    case SizeKind =>
      (match SizeConstraints.ParseExpression(options)
       case Some((m, n)) => SizeState(Some(m), Some(n as real))
       case None => SizeState(None, None))
    case TypeKind =>
      (match TypeConstraints.ParseExpression(options)
       case Some((m, ts)) => TypeState(Some(m), ts)
       case None => TypeState(None, []))
  }

  /** A rule's decision depends on its fields alone. */
  lemma AdmitsByState(c: Constraint, size: int, mime: string)
    ensures Admits(c, size, mime) == StateAdmits(StateOf(c), size, mime)
  {
  }

  /** The fields of every rule of a list, in order. */
  function States(cs: seq<Constraint>): (r: seq<RuleState>)
    reads Objects(cs)
    ensures |r| == |cs|
    ensures forall i :: 0 <= i < |cs| ==> r[i] == StateOf(cs[i])
  {
    if cs == [] then []
    else
      assert ObjectOf(cs[0]) in Objects(cs);
      assert Objects(cs[1..]) <= Objects(cs) by {
        forall o | o in Objects(cs[1..])
          ensures o in Objects(cs)
        {
          var i :| 0 <= i < |cs[1..]| && o == ObjectOf(cs[1..][i]);
          assert o == ObjectOf(cs[i + 1]);
        }
      }
      [StateOf(cs[0])] + States(cs[1..])
  }

  /** Whether rules with the given fields all hold for a file. */
  predicate AllAdmit(rules: seq<RuleState>, size: int, mime: string) {
    forall j :: 0 <= j < |rules| ==> StateAdmits(rules[j], size, mime)
  }

  /** The verdicts of rules with the given fields on a file, in order. */
  function StateVerdicts(rules: seq<RuleState>, size: int, mime: string): (v: seq<bool>)
    ensures |v| == |rules|
    ensures forall i :: 0 <= i < |rules| ==> v[i] == StateAdmits(rules[i], size, mime)
  {
    if rules == [] then [] else [StateAdmits(rules[0], size, mime)] + StateVerdicts(rules[1..], size, mime)
  }

  /** The verdicts of a list of rules are those of their fields. */
  lemma VerdictsByState(cs: seq<Constraint>, size: int, mime: string)
    ensures Verdicts(cs, size, mime) == StateVerdicts(States(cs), size, mime)
  {
    forall i | 0 <= i < |cs|
      ensures Verdicts(cs, size, mime)[i] == StateVerdicts(States(cs), size, mime)[i]
    {
      AdmitsByState(cs[i], size, mime);
    }
  }

  /** The rule is a fresh rule of its kind that parsed the expression. */
  ghost predicate ParsedFrom(c: Constraint, options: string)
    reads ObjectOf(c)
  {
    StateOf(c) == ParsedState(KindOf(c), options)
  }

  /** A new rule for an alias, parsed from an expression; an alias that is
      not registered is refused. */
  method FromAlias(alias: string, options: string) returns (r: Result<Constraint, string>)
    ensures r.Success? <==> ToLower(alias) in Registry
    ensures r.Success? ==>
      fresh(ObjectOf(r.value)) && KindOf(r.value) == Registry[ToLower(alias)] && ParsedFrom(r.value, options)
    ensures r.Failure? ==> r.error == "The constraint type \"" + alias + "\" does not exist"
  {
    var key := ToLower(alias);
    if key !in Registry {
      return Failure("The constraint type \"" + alias + "\" does not exist");
    }
    if Registry[key] == SizeKind {
      var s := new SizeConstraints.SizeConstraint();
      s.Parse(options);
      r := Success(SizeRule(s));
    } else {
      var t := new TypeConstraints.TypeConstraint();
      t.Parse(options);
      r := Success(TypeRule(t));
    }
  }

  /** One entry of the array `setConstraints` is given: an alias with its
      expression, a rule object, or an object that is not a rule. */
  datatype Entry = Alias(alias: string, options: string) | Instance(c: Constraint) | Foreign

  /** The rule an entry adds, with fields `s`: the object itself, or a
      fresh rule of the alias's kind parsed from the expression. */
  predicate Yields(e: Entry, c: Constraint, s: RuleState) {
    match e
    case Instance(d) => c == d
    case Alias(a, options) =>
      ToLower(a) in Registry && KindOf(c) == Registry[ToLower(a)] && s == ParsedState(KindOf(c), options)
    case Foreign => false
  }

  /** The rule is the one the entry adds. */
  ghost predicate Describes(c: Constraint, e: Entry)
    reads ObjectOf(c)
  {
    Yields(e, c, StateOf(c))
  }

  /** Each rule of a list is the one the entry at its position adds. */
  ghost predicate AllDescribe(cs: seq<Constraint>, es: seq<Entry>)
    reads Objects(cs)
  {
    |cs| == |es| && forall j :: 0 <= j < |cs| ==> Describes(cs[j], es[j])
  }

  /** The entries that add a rule: all but the foreign objects. */
  function Kept(es: seq<Entry>): (r: seq<Entry>)
    ensures |r| <= |es|
    ensures forall i :: 0 <= i < |r| ==> !r[i].Foreign?
  {
    if es == [] then []
    else if es[0].Foreign? then Kept(es[1..])
    else [es[0]] + Kept(es[1..])
  }

  lemma {:induction false} KeptAppend(es: seq<Entry>, e: Entry)
    ensures Kept(es + [e]) == Kept(es) + (if e.Foreign? then [] else [e])
  {
    if es != [] {
      assert (es + [e])[1..] == es[1..] + [e];
      KeptAppend(es[1..], e);
    } else {
      assert [e][1..] == [];
    }
  }

  /** Whether an entry is usable: anything but an alias that is not
      registered. */
  predicate Known(e: Entry) {
    !e.Alias? || ToLower(e.alias) in Registry
  }

  /** The position of the first alias that is not registered. */
  function FirstUnknown(es: seq<Entry>): (r: Option<nat>)
    ensures r.Some? ==> r.value < |es| && !Known(es[r.value])
    ensures r.Some? ==> forall j :: 0 <= j < r.value ==> Known(es[j])
    ensures r.None? ==> forall j :: 0 <= j < |es| ==> Known(es[j])
  {
    if es == [] then None
    else if !Known(es[0]) then Some(0)
    else match FirstUnknown(es[1..])
      case None => None
      case Some(k) => Some(k + 1)
  }
}
