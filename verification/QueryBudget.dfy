/**
 The GraphQL operation budget: an early-exit walk over a document whose fragments may be
 cyclic, proved against the walk without early exits and against the fully expanded document.
 */
module QueryBudget {
  import opened Prelude

  datatype Selection =
    | Leaf                                   // a field without a selection set
    | Field(selections: seq<Selection>)
    | Inline(selections: seq<Selection>)
    | Spread(name: string)

  type Fragments = map<string, seq<Selection>>

  /** The number of fields met and the deepest selection set entered. */
  datatype Totals = Totals(fields: nat, deepest: nat)

  function Plus(a: Totals, b: Totals): Totals {
    Totals(a.fields + b.fields, Max(a.deepest, b.deepest))
  }

  /** How many fragments are not being walked; each fragment that is entered lowers it. */
  function Remaining(fragments: Fragments, stack: set<string>): nat {
    |fragments.Keys - stack|
  }

  // ----- The walk without early exits -----

  /** Entering a selection set at `depth` and walking its first `n` selections. */
  function Full(fragments: Fragments, selections: seq<Selection>, n: nat, depth: nat, stack: set<string>): Totals
    requires n <= |selections|
    decreases Remaining(fragments, stack), selections, n
  {
    if n == 0 then Totals(0, depth)
    else Plus(Full(fragments, selections, n - 1, depth, stack), One(fragments, selections[n - 1], depth, stack))
  }

  function One(fragments: Fragments, selection: Selection, depth: nat, stack: set<string>): Totals
    decreases Remaining(fragments, stack), selection, 0
  {
    match selection
    case Leaf => Totals(1, 0)
    case Field(sub) => Plus(Totals(1, 0), Full(fragments, sub, |sub|, depth + 1, stack))
    case Inline(sub) => Full(fragments, sub, |sub|, depth + 1, stack)
    case Spread(name) =>
      if name in stack || name !in fragments then Totals(0, 0)
      else
        StackGrows(fragments, name, stack);
        Full(fragments, fragments[name], |fragments[name]|, depth + 1, stack + {name})
  }

  lemma StackGrows(fragments: Fragments, name: string, stack: set<string>)
    requires name in fragments && name !in stack
    ensures Remaining(fragments, stack + {name}) < Remaining(fragments, stack)
  {
    assert fragments.Keys - (stack + {name}) == fragments.Keys - stack - {name};
  }

  /** What a whole operation costs. */
  function Cost(fragments: Fragments, operation: seq<Selection>): Totals {
    Full(fragments, operation, |operation|, 1, {})
  }

  predicate Exceeds(totals: Totals, maxDepth: int, maxFields: int) {
    totals.deepest > maxDepth || totals.fields > maxFields
  }

  // ----- The walk of the validation rule -----

  class BudgetWalk {
    const fragments: Fragments
    const maxDepth: int
    const maxFields: int
    var fields: nat
    var deepest: nat
    var fragmentStack: set<string>

    constructor (fragments: Fragments, maxDepth: int, maxFields: int)
      ensures this.fragments == fragments && this.maxDepth == maxDepth && this.maxFields == maxFields
      ensures fields == 0 && deepest == 0 && fragmentStack == {}
    {
      this.fragments, this.maxDepth, this.maxFields := fragments, maxDepth, maxFields;
      fields, deepest, fragmentStack := 0, 0, {};
    }

    predicate Exceeded()
      reads this
    {
      deepest > maxDepth || fields > maxFields
    }

    /**
     Whatever it skips, the walk never counts more than the full walk, and unless a limit
     is exceeded it counts exactly as much.
     */
    method Walk(selections: seq<Selection>, depth: nat)
      modifies this
      ensures fragmentStack == old(fragmentStack)
      ensures var full := Full(fragments, selections, |selections|, depth, fragmentStack);
        && old(fields) <= fields <= old(fields) + full.fields
        && old(deepest) <= deepest <= Max(old(deepest), full.deepest)
        && (!Exceeded() ==> fields == old(fields) + full.fields && deepest == Max(old(deepest), full.deepest))
      decreases Remaining(fragments, fragmentStack), selections
    {
      hide Remaining, Full, One;
      ghost var stack := fragmentStack;
      ghost var full := Full(fragments, selections, |selections|, depth, stack);
      FullGrows(fragments, selections, 0, depth, stack);
      FullUnfolds(fragments, selections, 0, depth, stack);
      ghost var seen := Totals(0, depth);
      deepest := Max(deepest, depth);
      if Exceeded() {
        return;
      }
      for i := 0 to |selections|
        invariant fragmentStack == stack && !Exceeded()
        invariant seen == Full(fragments, selections, i, depth, stack)
        invariant fields == old(fields) + seen.fields && deepest == Max(old(deepest), seen.deepest)
      {
        FullGrows(fragments, selections, i + 1, depth, stack);
        FullUnfolds(fragments, selections, i, depth, stack);
        seen := Plus(seen, One(fragments, selections[i], depth, stack));
        WalkOne(selections[i], depth);
        if Exceeded() {
          return;
        }
      }
    }

    /** The body of the selection loop. */
    method WalkOne(selection: Selection, depth: nat)
      modifies this
      ensures fragmentStack == old(fragmentStack)
      ensures var full := One(fragments, selection, depth, fragmentStack);
        && old(fields) <= fields <= old(fields) + full.fields
        && old(deepest) <= deepest <= Max(old(deepest), full.deepest)
        && (!Exceeded() ==> fields == old(fields) + full.fields && deepest == Max(old(deepest), full.deepest))
      decreases Remaining(fragments, fragmentStack), selection
    {
      hide Remaining, Full;
      match selection
      case Leaf =>
        fields := fields + 1;
      case Field(sub) =>
        fields := fields + 1;
        Walk(sub, depth + 1);
      case Inline(sub) =>
        Walk(sub, depth + 1);
      case Spread(name) =>
        if name in fragmentStack {
          return;
        }
        if name in fragments {
          StackGrows(fragments, name, fragmentStack);
          fragmentStack := fragmentStack + {name};
          Walk(fragments[name], depth + 1);
          fragmentStack := fragmentStack - {name};
        }
    }
  }

  lemma FullUnfolds(fragments: Fragments, selections: seq<Selection>, n: nat, depth: nat, stack: set<string>)
    requires n <= |selections|
    ensures Full(fragments, selections, 0, depth, stack) == Totals(0, depth)
    ensures n < |selections| ==>
      Full(fragments, selections, n + 1, depth, stack)
        == Plus(Full(fragments, selections, n, depth, stack), One(fragments, selections[n], depth, stack))
  {
  }

  /** The totals of a selection set only grow with the selections that are walked. */
  lemma {:induction false} FullGrows(
      fragments: Fragments, selections: seq<Selection>, n: nat, depth: nat, stack: set<string>)
    requires n <= |selections|
    ensures var part := Full(fragments, selections, n, depth, stack);
      var whole := Full(fragments, selections, |selections|, depth, stack);
      part.fields <= whole.fields && depth <= part.deepest <= whole.deepest
    decreases |selections| - n
  {
    if n < |selections| {
      FullGrows(fragments, selections, n + 1, depth, stack);
    }
    StartsAtDepth(fragments, selections, n, depth, stack);
  }

  lemma {:induction false} StartsAtDepth(
      fragments: Fragments, selections: seq<Selection>, n: nat, depth: nat, stack: set<string>)
    requires n <= |selections|
    ensures depth <= Full(fragments, selections, n, depth, stack).deepest
    decreases n
  {
    if n > 0 {
      StartsAtDepth(fragments, selections, n - 1, depth, stack);
    }
  }

  /**
   One operation of the validation rule. An error is reported exactly when the operation costs
   more than a limit, and each error that is reported is justified.
   */
  method CheckOperation(fragments: Fragments, operation: seq<Selection>, maxDepth: int, maxFields: int)
    returns (tooDeep: bool, tooMany: bool)
    ensures tooDeep || tooMany <==> Exceeds(Cost(fragments, operation), maxDepth, maxFields)
    ensures tooDeep ==> Cost(fragments, operation).deepest > maxDepth
    ensures tooMany ==> Cost(fragments, operation).fields > maxFields
  {
    var walk := new BudgetWalk(fragments, maxDepth, maxFields);
    walk.Walk(operation, 1);
    tooDeep := walk.deepest > maxDepth;
    tooMany := walk.fields > maxFields;
  }

  /** A document is its fragment definitions, in order, and its operations. */
  datatype Document = Document(definitions: seq<(string, seq<Selection>)>, operations: seq<seq<Selection>>)

  /** The fragment table; a later definition of a name replaces an earlier one. */
  function FragmentTable(definitions: seq<(string, seq<Selection>)>): Fragments {
    if definitions == [] then map[]
    else
      var n := |definitions| - 1;
      FragmentTable(definitions[..n])[definitions[n].0 := definitions[n].1]
  }

  /** Position `i` is the last definition of the name, and has these selections. */
  predicate IsLast(definitions: seq<(string, seq<Selection>)>, i: nat, name: string, selections: seq<Selection>) {
    && i < |definitions| && definitions[i] == (name, selections)
    && forall j :: i < j < |definitions| ==> definitions[j].0 != name
  }

  predicate IsEntry(definitions: seq<(string, seq<Selection>)>, name: string, selections: seq<Selection>) {
    exists i :: 0 <= i < |definitions| && IsLast(definitions, i, name, selections)
  }

  /** A table holds every defined name, each with the selections of its last definition, and no other name. */
  predicate IsTable(table: Fragments, definitions: seq<(string, seq<Selection>)>) {
    && (forall name :: name in table ==> IsEntry(definitions, name, table[name]))
    && (forall i :: 0 <= i < |definitions| ==> definitions[i].0 in table)
  }

  lemma EntryStays(
      definitions: seq<(string, seq<Selection>)>, last: (string, seq<Selection>),
      name: string, selections: seq<Selection>)
    requires if name == last.0 then selections == last.1 else IsEntry(definitions, name, selections)
    ensures IsEntry(definitions + [last], name, selections)
  {
    var longer := definitions + [last];
    if name == last.0 {
      assert IsLast(longer, |definitions|, name, selections);
    } else {
      var i :| 0 <= i < |definitions| && IsLast(definitions, i, name, selections);
      assert IsLast(longer, i, name, selections);
    }
  }

  lemma {:induction false} FragmentTableIsTable(definitions: seq<(string, seq<Selection>)>)
    ensures IsTable(FragmentTable(definitions), definitions)
    decreases |definitions|
  {
    if definitions != [] {
      var n := |definitions| - 1;
      var before, last := definitions[..n], definitions[n];
      FragmentTableIsTable(before);
      assert before + [last] == definitions;
      hide IsEntry;
      forall name | name in FragmentTable(definitions)
        ensures IsEntry(definitions, name, FragmentTable(definitions)[name])
      {
        EntryStays(before, last, name, FragmentTable(definitions)[name]);
      }
      assert forall i :: 0 <= i < n ==> before[i] == definitions[i];
    }
  }

  lemma EntriesAgree(
      definitions: seq<(string, seq<Selection>)>, name: string, one: seq<Selection>, other: seq<Selection>)
    requires IsEntry(definitions, name, one) && IsEntry(definitions, name, other)
    ensures one == other && exists i :: 0 <= i < |definitions| && definitions[i].0 == name
  {
    var i :| 0 <= i < |definitions| && IsLast(definitions, i, name, one);
    var j :| 0 <= j < |definitions| && IsLast(definitions, j, name, other);
  }

  /** The definitions determine their table. */
  lemma {:induction false} TablesAgree(a: Fragments, b: Fragments, definitions: seq<(string, seq<Selection>)>)
    requires IsTable(a, definitions) && IsTable(b, definitions)
    ensures a == b
  {
    hide IsEntry;
    forall name ensures name in a <==> name in b {
      if name in a { EntriesAgree(definitions, name, a[name], a[name]); }
      if name in b { EntriesAgree(definitions, name, b[name], b[name]); }
    }
    forall name | name in a ensures a[name] == b[name] {
      EntriesAgree(definitions, name, a[name], b[name]);
    }
  }

  datatype BudgetError = TooDeep(operation: nat) | TooManyFields(operation: nat)

  predicate Reports(errors: seq<BudgetError>, operation: nat) {
    TooDeep(operation) in errors || TooManyFields(operation) in errors
  }

  /** The rule on a whole document: it reports exactly the operations over budget. */
  method OperationBudgetRule(document: Document, maxDepth: int, maxFields: int) returns (errors: seq<BudgetError>)
    ensures forall table, k :: IsTable(table, document.definitions) && 0 <= k < |document.operations| ==>
      (Reports(errors, k) <==> Exceeds(Cost(table, document.operations[k]), maxDepth, maxFields))
    ensures forall e :: e in errors ==> e.operation < |document.operations|
    ensures forall table, k :: IsTable(table, document.definitions) && 0 <= k < |document.operations| ==>
      && (TooDeep(k) in errors ==> Cost(table, document.operations[k]).deepest > maxDepth)
      && (TooManyFields(k) in errors ==> Cost(table, document.operations[k]).fields > maxFields)
  {
    var table := FragmentTable(document.definitions);
    errors := [];
    for i := 0 to |document.operations|
      invariant forall e :: e in errors ==> e.operation < i
      invariant forall k :: 0 <= k < i ==>
        (Reports(errors, k) <==> Exceeds(Cost(table, document.operations[k]), maxDepth, maxFields))
      invariant forall k :: 0 <= k < i ==>
        && (TooDeep(k) in errors ==> Cost(table, document.operations[k]).deepest > maxDepth)
        && (TooManyFields(k) in errors ==> Cost(table, document.operations[k]).fields > maxFields)
    {
      ghost var before := errors;
      var tooDeep, tooMany := CheckOperation(table, document.operations[i], maxDepth, maxFields);
      if tooDeep {
        errors := errors + [TooDeep(i)];
      }
      if tooMany {
        errors := errors + [TooManyFields(i)];
      }
      assert forall k :: 0 <= k < i ==> (Reports(errors, k) <==> Reports(before, k));
    }
    forall other | IsTable(other, document.definitions) ensures other == table {
      FragmentTableIsTable(document.definitions);
      TablesAgree(other, table, document.definitions);
    }
  }

  // ----- The cost is the size of the expanded document -----

  /** The first `n` selections with each spread replaced by its fragment; a spread inside itself vanishes. */
  function Expand(fragments: Fragments, selections: seq<Selection>, n: nat, stack: set<string>): seq<Selection>
    requires n <= |selections|
    decreases Remaining(fragments, stack), selections, n
  {
    if n == 0 then []
    else Expand(fragments, selections, n - 1, stack) + ExpandOne(fragments, selections[n - 1], stack)
  }

  function ExpandOne(fragments: Fragments, selection: Selection, stack: set<string>): seq<Selection>
    decreases Remaining(fragments, stack), selection, 0
  {
    match selection
    case Leaf => [Leaf]
    case Field(sub) => [Field(Expand(fragments, sub, |sub|, stack))]
    case Inline(sub) => [Inline(Expand(fragments, sub, |sub|, stack))]
    case Spread(name) =>
      if name in stack || name !in fragments then []
      else
        StackGrows(fragments, name, stack);
        [Inline(Expand(fragments, fragments[name], |fragments[name]|, stack + {name}))]
  }

  function FieldCount(selections: seq<Selection>): nat {
    if selections == [] then 0
    else
      var n := |selections| - 1;
      FieldCount(selections[..n]) +
        match selections[n]
        case Leaf => 1
        case Field(sub) => 1 + FieldCount(sub)
        case Inline(sub) => FieldCount(sub)
        case Spread(_) => 0
  }

  /** How many selection sets are nested below this one. */
  function Height(selections: seq<Selection>): nat {
    if selections == [] then 0
    else
      var n := |selections| - 1;
      Max(Height(selections[..n]),
        match selections[n]
        case Leaf => 0
        case Field(sub) => 1 + Height(sub)
        case Inline(sub) => 1 + Height(sub)
        case Spread(_) => 0)
  }

  predicate SizeOf(totals: Totals, expanded: seq<Selection>, depth: nat) {
    totals.fields == FieldCount(expanded) && totals.deepest == depth + Height(expanded)
  }

  lemma ExpandUnfolds(fragments: Fragments, selections: seq<Selection>, n: nat, stack: set<string>)
    requires n < |selections|
    ensures Expand(fragments, selections, n + 1, stack)
         == Expand(fragments, selections, n, stack) + ExpandOne(fragments, selections[n], stack)
  {
  }

  lemma {:induction false} FullMeasuresExpansion(
      fragments: Fragments, selections: seq<Selection>, n: nat, depth: nat, stack: set<string>)
    requires n <= |selections|
    ensures SizeOf(Full(fragments, selections, n, depth, stack), Expand(fragments, selections, n, stack), depth)
    decreases Remaining(fragments, stack), selections, n
  {
    if n == 0 {
      assert Expand(fragments, selections, n, stack) == [];
    } else {
      FullUnfolds(fragments, selections, n - 1, depth, stack);
      ExpandUnfolds(fragments, selections, n - 1, stack);
      hide Remaining, Full, One, Expand, ExpandOne, FieldCount, Height;
      FullMeasuresExpansion(fragments, selections, n - 1, depth, stack);
      OneMeasuresExpansion(fragments, selections[n - 1], depth, stack);
      AddSelection(Expand(fragments, selections, n - 1, stack), ExpandOne(fragments, selections[n - 1], stack));
    }
  }

  /** A selection set that is entered, and the selection it is expanded to. */
  lemma EnteredMeasuresExpansion(
      fragments: Fragments, sub: seq<Selection>, depth: nat, stack: set<string>)
    requires SizeOf(Full(fragments, sub, |sub|, depth + 1, stack), Expand(fragments, sub, |sub|, stack), depth + 1)
    ensures var full := Full(fragments, sub, |sub|, depth + 1, stack);
      var expanded := Expand(fragments, sub, |sub|, stack);
      && FieldCount([Inline(expanded)]) == full.fields && FieldCount([Field(expanded)]) == 1 + full.fields
      && depth + Height([Inline(expanded)]) == depth + Height([Field(expanded)]) == Max(depth, full.deepest)
  {
    hide Full, Expand, FieldCount, Height;
    SingleSelection(Inline(Expand(fragments, sub, |sub|, stack)));
    SingleSelection(Field(Expand(fragments, sub, |sub|, stack)));
  }

  lemma {:induction false} OneMeasuresExpansion(
      fragments: Fragments, selection: Selection, depth: nat, stack: set<string>)
    ensures var one := ExpandOne(fragments, selection, stack);
      && |one| <= 1
      && FieldCount(one) == One(fragments, selection, depth, stack).fields
      && depth + Height(one) == Max(depth, One(fragments, selection, depth, stack).deepest)
    decreases Remaining(fragments, stack), selection, 0
  {
    hide Remaining, Full, Expand, FieldCount, Height;
    match selection
    case Leaf =>
      SingleSelection(Leaf);
    case Field(sub) =>
      FullMeasuresExpansion(fragments, sub, |sub|, depth + 1, stack);
      EnteredMeasuresExpansion(fragments, sub, depth, stack);
    case Inline(sub) =>
      FullMeasuresExpansion(fragments, sub, |sub|, depth + 1, stack);
      EnteredMeasuresExpansion(fragments, sub, depth, stack);
    case Spread(name) =>
      NothingSelected();
      if name !in stack && name in fragments {
        StackGrows(fragments, name, stack);
        FullMeasuresExpansion(fragments, fragments[name], |fragments[name]|, depth + 1, stack + {name});
        EnteredMeasuresExpansion(fragments, fragments[name], depth, stack + {name});
      }
  }

  lemma NothingSelected()
    ensures FieldCount([]) == 0 && Height([]) == 0
  {
  }

  lemma SingleSelection(selection: Selection)
    ensures FieldCount([selection]) ==
      match selection
      case Leaf => 1
      case Field(sub) => 1 + FieldCount(sub)
      case Inline(sub) => FieldCount(sub)
      case Spread(_) => 0
    ensures Height([selection]) ==
      match selection
      case Leaf => 0
      case Field(sub) => 1 + Height(sub)
      case Inline(sub) => 1 + Height(sub)
      case Spread(_) => 0
  {
    assert [selection][..0] == [];
  }

  lemma AddSelection(before: seq<Selection>, one: seq<Selection>)
    requires |one| <= 1
    ensures FieldCount(before + one) == FieldCount(before) + FieldCount(one)
    ensures Height(before + one) == Max(Height(before), Height(one))
  {
    if one == [] {
      assert before + one == before;
    } else {
      var added := before + one;
      assert added[..|added| - 1] == before && added[|added| - 1] == one[0] && one == [one[0]];
      SingleSelection(one[0]);
    }
  }

  /** An operation's cost is the field count and the nesting of the document with its fragments written out. */
  lemma {:induction false} CostIsExpandedSize(fragments: Fragments, operation: seq<Selection>)
    ensures var expanded := Expand(fragments, operation, |operation|, {});
      Cost(fragments, operation) == Totals(FieldCount(expanded), 1 + Height(expanded))
  {
    FullMeasuresExpansion(fragments, operation, |operation|, 1, {});
  }
}
