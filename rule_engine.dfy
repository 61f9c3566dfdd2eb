/**
  The rule engine: a boolean expression tree evaluated against one bar's
  snapshot, a map from field name (`close`, `sma_50`, `rsi`, ...) to number.
  Nothing in it fails: a missing field, an unknown operator or an unknown node
  type makes the node false.
 */
module RuleEngine {
  import opened Wrappers

  /** One bar with its indicator fields; a field in warm-up is simply absent. */
  type Snapshot = map<string, real>

  /** The six comparison operators, and any other operator text a rule may carry. */
  datatype CompareOp = Gt | Lt | Ge | Le | Eq | Ne | OtherCompareOp(text: string)

  /** The two logical operators, and any other operator text a rule may carry. */
  datatype LogicOp = And | Or | OtherLogicOp(text: string)

  /** The right-hand side of a comparison: a field name or a numeric literal. */
  datatype Operand = Field(name: string) | Literal(value: real)

  /**
    A rule node. `Comparison` is the node tagged 'comparison'; `Logical` is the
    node the engine dispatches on the tag 'operator'; every other tag (including
    'logical', the tag the type declaration names) is an `UnknownRule`.
   */
  datatype Rule =
    | Comparison(left: string, op: CompareOp, right: Operand)
    | Logical(logic: LogicOp, conditions: seq<Rule>)
    | UnknownRule(tag: string)

  /** A field of the snapshot, or `None` when the snapshot has no such field (names inherited by every object included). */
  function Lookup(data: Snapshot, name: string): Option<real>
  {
    if name in data then Some(data[name]) else None
  }

  /** A field name is looked up; a literal stands for itself. */
  function Resolve(data: Snapshot, operand: Operand): Option<real>
  {
    match operand
    case Field(name) => Lookup(data, name)
    case Literal(v) => Some(v)
  }

  function Compare(op: CompareOp, l: real, r: real): bool
  {
    match op
    case Gt => l > r
    case Lt => l < r
    case Ge => l >= r
    case Le => l <= r
    case Eq => l == r
    case Ne => l != r
    case OtherCompareOp(_) => false
  }

  function EvaluateComparison(left: string, op: CompareOp, right: Operand, data: Snapshot): bool
  {
    var leftValue := Lookup(data, left);
    var rightValue := Resolve(data, right);
    if leftValue.None? || rightValue.None? then false
    else Compare(op, leftValue.value, rightValue.value)
  }

  function EvaluateRule(rule: Rule, data: Snapshot): bool
    decreases rule, 1
  {
    match rule
    case Comparison(left, op, right) => EvaluateComparison(left, op, right, data)
    case Logical(logic, conditions) => EvaluateLogical(logic, conditions, data)
    case UnknownRule(_) => false
  }

  function EvaluateLogical(logic: LogicOp, conditions: seq<Rule>, data: Snapshot): bool
    decreases conditions, 1
  {
    match logic
    case And => Every(conditions, data)
    case Or => Any(conditions, data)
    case OtherLogicOp(_) => false
  }

  /** `conditions.every(...)`: true exactly when every child is true. */
  function Every(conditions: seq<Rule>, data: Snapshot): (r: bool)
    decreases conditions, 0
    ensures r <==> forall i :: 0 <= i < |conditions| ==> EvaluateRule(conditions[i], data)
  {
    if conditions == [] then true
    else EvaluateRule(conditions[0], data) && Every(conditions[1..], data)
  }

  /** `conditions.some(...)`: true exactly when some child is true. */
  function Any(conditions: seq<Rule>, data: Snapshot): (r: bool)
    decreases conditions, 0
    ensures r <==> exists i :: 0 <= i < |conditions| && EvaluateRule(conditions[i], data)
  {
    if conditions == [] then false
    else EvaluateRule(conditions[0], data) || Any(conditions[1..], data)
  }

  /** The field names a rule reads, in comparisons at any depth. */
  function FieldsOf(rule: Rule): set<string>
    decreases rule, 1
  {
    match rule
    case Comparison(left, _, right) => {left} + (if right.Field? then {right.name} else {})
    case Logical(_, conditions) => FieldsOfAll(conditions)
    case UnknownRule(_) => {}
  }

  function FieldsOfAll(rules: seq<Rule>): set<string>
    decreases rules, 0
  {
    if rules == [] then {} else FieldsOf(rules[0]) + FieldsOfAll(rules[1..])
  }

  /** Two snapshots agree on `fields`: the same ones present, with the same values. */
  ghost predicate AgreeOn(fields: set<string>, d1: Snapshot, d2: Snapshot)
  {
    forall f :: f in fields ==> (f in d1 <==> f in d2) && (f in d1 ==> d1[f] == d2[f])
  }

  // ---------------------------------------------------------------------------
  // Comparisons

  /** A comparison whose left field, or whose field-valued right side, is absent is false. */
  lemma MissingFieldIsFalse(left: string, op: CompareOp, right: Operand, data: Snapshot)
    requires left !in data || (right.Field? && right.name !in data)
    ensures !EvaluateRule(Comparison(left, op, right), data)
  {
  }

  /** A right side that names a field reads that field; a numeric right side is the number itself. */
  lemma RightOperandResolution(right: Operand, data: Snapshot)
    ensures right.Field? ==> (Resolve(data, right).Some? <==> right.name in data)
    ensures right.Field? && right.name in data ==> Resolve(data, right).value == data[right.name]
    ensures right.Literal? ==> Resolve(data, right) == Some(right.value)
  {
  }

  /** With both operands present, each operator is exactly its relation. */
  lemma ComparisonRelations(left: string, right: Operand, data: Snapshot)
    requires left in data && Resolve(data, right).Some?
    ensures var l, r := data[left], Resolve(data, right).value;
      && (EvaluateRule(Comparison(left, Gt, right), data) <==> l > r)
      && (EvaluateRule(Comparison(left, Lt, right), data) <==> l < r)
      && (EvaluateRule(Comparison(left, Ge, right), data) <==> l >= r)
      && (EvaluateRule(Comparison(left, Le, right), data) <==> l <= r)
      && (EvaluateRule(Comparison(left, Eq, right), data) <==> l == r)
      && (EvaluateRule(Comparison(left, Ne, right), data) <==> l != r)
  {
  }

  /**
    How the operators relate to one another when both operands are present:
    `==` and `!=` are complementary, exactly one of `>`, `<`, `==` holds, and
    `>=` / `<=` are `>` / `<` widened by `==`.
   */
  lemma OperatorAlgebra(left: string, right: Operand, data: Snapshot)
    requires left in data && Resolve(data, right).Some?
    ensures EvaluateRule(Comparison(left, Eq, right), data) != EvaluateRule(Comparison(left, Ne, right), data)
    ensures var gt, lt, eq := EvaluateRule(Comparison(left, Gt, right), data),
                              EvaluateRule(Comparison(left, Lt, right), data),
                              EvaluateRule(Comparison(left, Eq, right), data);
      (gt || lt || eq) && !(gt && lt) && !(gt && eq) && !(lt && eq)
    ensures EvaluateRule(Comparison(left, Ge, right), data) ==
      (EvaluateRule(Comparison(left, Gt, right), data) || EvaluateRule(Comparison(left, Eq, right), data))
    ensures EvaluateRule(Comparison(left, Le, right), data) ==
      (EvaluateRule(Comparison(left, Lt, right), data) || EvaluateRule(Comparison(left, Eq, right), data))
  {
  }

  /** Comparing two fields with `>` is the same as comparing them the other way round with `<`. */
  lemma SwappedFieldComparison(a: string, b: string, data: Snapshot)
    ensures EvaluateRule(Comparison(a, Gt, Field(b)), data) == EvaluateRule(Comparison(b, Lt, Field(a)), data)
    ensures EvaluateRule(Comparison(a, Ge, Field(b)), data) == EvaluateRule(Comparison(b, Le, Field(a)), data)
  {
  }

  /** An operator outside the six is false, whatever the operands. */
  lemma UnknownComparisonOperatorIsFalse(left: string, text: string, right: Operand, data: Snapshot)
    ensures !EvaluateRule(Comparison(left, OtherCompareOp(text), right), data)
  {
  }

  // ---------------------------------------------------------------------------
  // Logical nodes

  /** AND is true iff every child is true; OR is true iff some child is true. */
  lemma LogicalSemantics(conditions: seq<Rule>, data: Snapshot)
    ensures EvaluateRule(Logical(And, conditions), data) <==>
      forall i :: 0 <= i < |conditions| ==> EvaluateRule(conditions[i], data)
    ensures EvaluateRule(Logical(Or, conditions), data) <==>
      exists i :: 0 <= i < |conditions| && EvaluateRule(conditions[i], data)
  {
  }

  /** The empty AND is true and the empty OR is false. */
  lemma EmptyLogical(data: Snapshot)
    ensures EvaluateRule(Logical(And, []), data)
    ensures !EvaluateRule(Logical(Or, []), data)
  {
  }

  /** An unknown logical operator is false, even with no children. */
  lemma UnknownLogicalOperatorIsFalse(text: string, conditions: seq<Rule>, data: Snapshot)
    ensures !EvaluateRule(Logical(OtherLogicOp(text), conditions), data)
  {
  }

  /** A node of unknown type is false. */
  lemma UnknownRuleTypeIsFalse(tag: string, data: Snapshot)
    ensures !EvaluateRule(UnknownRule(tag), data)
  {
  }

  /**
    A rule reads nothing but the fields it names: two snapshots that agree on
    those fields give the same verdict, so indicator fields a rule does not
    mention can be added or left out freely.
   */
  lemma {:induction false} OnlyReferencedFieldsMatter(rule: Rule, d1: Snapshot, d2: Snapshot)
    requires AgreeOn(FieldsOf(rule), d1, d2)
    ensures EvaluateRule(rule, d1) == EvaluateRule(rule, d2)
    decreases rule, 1
  {
    match rule
    case Comparison(left, op, right) =>
      assert left in FieldsOf(rule);
      if right.Field? {
        assert right.name in FieldsOf(rule);
      }
    case Logical(logic, conditions) =>
      OnlyReferencedFieldsMatterAll(conditions, d1, d2);
    case UnknownRule(_) =>
  }

  lemma {:induction false} OnlyReferencedFieldsMatterAll(rules: seq<Rule>, d1: Snapshot, d2: Snapshot)
    requires AgreeOn(FieldsOfAll(rules), d1, d2)
    ensures forall i :: 0 <= i < |rules| ==> EvaluateRule(rules[i], d1) == EvaluateRule(rules[i], d2)
    decreases rules, 0
  {
    if rules != [] {
      assert FieldsOfAll(rules) == FieldsOf(rules[0]) + FieldsOfAll(rules[1..]);
      OnlyReferencedFieldsMatter(rules[0], d1, d2);
      OnlyReferencedFieldsMatterAll(rules[1..], d1, d2);
      forall i | 0 <= i < |rules|
        ensures EvaluateRule(rules[i], d1) == EvaluateRule(rules[i], d2)
      {
        if i > 0 {
          assert rules[i] == rules[1..][i - 1];
        }
      }
    }
  }

  // ---------------------------------------------------------------------------
  // The source's own test cases, on its snapshot

  function TestSnapshot(): Snapshot
  {
    map["Close" := 50000.0, "SMA_50" := 48000.0, "RSI" := 30.0, "Prev_Close" := 49000.0]
  }

  /** Field-to-field and field-to-literal comparisons on the test snapshot. */
  lemma TestComparisons()
    ensures EvaluateRule(Comparison("Close", Gt, Field("SMA_50")), TestSnapshot())
    ensures EvaluateRule(Comparison("RSI", Lt, Literal(40.0)), TestSnapshot())
    ensures !EvaluateRule(Comparison("RSI", Gt, Literal(40.0)), TestSnapshot())
    ensures EvaluateRule(Comparison("Close", Ge, Literal(50000.0)), TestSnapshot())
    ensures EvaluateRule(Comparison("RSI", Ne, Literal(40.0)), TestSnapshot())
    ensures !EvaluateRule(Comparison("RSI", OtherCompareOp("UNKNOWN"), Literal(40.0)), TestSnapshot())
    ensures !EvaluateRule(Comparison("missing_key", Gt, Literal(40.0)), TestSnapshot())
  {
  }

  /** AND of two true comparisons, OR with one true comparison, and an unknown operator over no children. */
  lemma TestLogicalRules()
    ensures EvaluateRule(
      Logical(And, [Comparison("Close", Gt, Literal(100.0)), Comparison("RSI", Lt, Literal(40.0))]), TestSnapshot())
    ensures EvaluateRule(
      Logical(Or, [Comparison("Close", Lt, Field("SMA_50")), Comparison("RSI", Eq, Literal(30.0))]), TestSnapshot())
    ensures !EvaluateRule(Logical(OtherLogicOp("UNKNOWN"), []), TestSnapshot())
  {
    var both := [Comparison("Close", Gt, Literal(100.0)), Comparison("RSI", Lt, Literal(40.0))];
    assert EvaluateRule(both[0], TestSnapshot()) && EvaluateRule(both[1], TestSnapshot());
    var either := [Comparison("Close", Lt, Field("SMA_50")), Comparison("RSI", Eq, Literal(30.0))];
    assert EvaluateRule(either[1], TestSnapshot());
  }

  /** AND of [OR(Close > 60000, RSI < 40), Close > Prev_Close] is true on the test snapshot. */
  lemma TestNestedRule()
    ensures EvaluateRule(
      Logical(And, [
        Logical(Or, [Comparison("Close", Gt, Literal(60000.0)), Comparison("RSI", Lt, Literal(40.0))]),
        Comparison("Close", Gt, Field("Prev_Close"))]),
      TestSnapshot())
  {
    var inner := [Comparison("Close", Gt, Literal(60000.0)), Comparison("RSI", Lt, Literal(40.0))];
    assert EvaluateRule(inner[1], TestSnapshot());
    var outer := [Logical(Or, inner), Comparison("Close", Gt, Field("Prev_Close"))];
    assert EvaluateRule(outer[0], TestSnapshot());
    assert EvaluateRule(outer[1], TestSnapshot());
  }
}
