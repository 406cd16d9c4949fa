/** Spec validation: the result accumulator, and the check of test contract references. */
module SpecReferences {
  import opened Text

  datatype Severity = Fatal | Warning

  datatype Finding = Finding(rule: string, severity: Severity, message: string)

  datatype TestContract = TestContract(name: string, mapsTo: seq<string>)

  /** The lengths of the two lists are all the check reads of them. */
  datatype Spec = Spec(criteria: nat, invariants: nat, contracts: seq<TestContract>)

  const MAX_INT: nat := 0x7FFF_FFFF_FFFF_FFFF

  /** Slice lengths are Go ints. */
  predicate FitsInt(s: Spec) {
    s.criteria <= MAX_INT && s.invariants <= MAX_INT
  }

  const CRITERIA_NAME: string := "acceptance_criteria"
  const INVARIANTS_NAME: string := "invariants"

  // ---------------------------------------------------------------- a reference

  function Print(name: string, digits: string): string {
    name + "[" + digits + "]"
  }

  /** What is between "name[" and "]", if `ref` has that shape with digits in between. */
  function Digits(name: string, ref: string): Option<string> {
    if HasPrefix(ref, name + "[") && HasSuffix(ref, "]") && |ref| >= |name| + 2
       && AllDigits(ref[|name| + 1..|ref| - 1])
    then Some(ref[|name| + 1..|ref| - 1]) else None
  }

  /** strconv.Atoi on digits, its error ignored: an overflow leaves the largest int. */
  function Atoi(digits: string): nat
    requires AllDigits(digits)
  {
    if ValueOf(digits) > MAX_INT then MAX_INT else ValueOf(digits)
  }

  /** The check of one reference; None is acceptance. */
  function CheckReference(s: Spec, ref: string): Option<Finding> {
    var criterion, invar := Digits(CRITERIA_NAME, ref), Digits(INVARIANTS_NAME, ref);
    if criterion.Some? then
      if Atoi(criterion.value) >= s.criteria then Some(Finding("test_contracts.references", Fatal, "out of range")) else None
    else if invar.Some? then
      if Atoi(invar.value) >= s.invariants then Some(Finding("test_contracts.references", Fatal, "out of range")) else None
    else Some(Finding("test_contracts.references", Fatal, "invalid reference"))
  }

  /** What a reference has to be: a decimal index, of any number of digits, into one of the two lists. */
  ghost predicate ValidReference(s: Spec, ref: string) {
    exists digits :: AllDigits(digits) &&
      ((ref == Print(CRITERIA_NAME, digits) && ValueOf(digits) < s.criteria)
       || (ref == Print(INVARIANTS_NAME, digits) && ValueOf(digits) < s.invariants))
  }

  lemma DigitsOfPrint(name: string, ref: string, digits: string)
    requires AllDigits(digits)
    ensures ref == Print(name, digits) <==> Digits(name, ref) == Some(digits)
  {
    if ref == Print(name, digits) {
      assert ref[..|name| + 1] == name + "[" && ref[|ref| - 1..] == "]";
      assert ref[|name| + 1..|ref| - 1] == digits;
    }
    if Digits(name, ref) == Some(digits) {
      assert ref == ref[..|name| + 1] + ref[|name| + 1..|ref| - 1] + ref[|ref| - 1..];
    }
  }

  lemma NamesDiffer(digits: string, digits': string)
    ensures Print(CRITERIA_NAME, digits) != Print(INVARIANTS_NAME, digits')
  {
    assert Print(CRITERIA_NAME, digits)[0] == 'a' && Print(INVARIANTS_NAME, digits')[0] == 'i';
  }

  /** A reference raises no error exactly when it is valid, overflow included. */
  lemma CheckIsValidity(s: Spec, ref: string)
    requires FitsInt(s)
    ensures CheckReference(s, ref).None? <==> ValidReference(s, ref)
  {
    hide Digits, Print, AllDigits, ValueOf;
    var criterion, invar := Digits(CRITERIA_NAME, ref), Digits(INVARIANTS_NAME, ref);
    DigitsAreDigits(CRITERIA_NAME, ref);
    DigitsAreDigits(INVARIANTS_NAME, ref);
    forall digits | AllDigits(digits)
      ensures ref == Print(CRITERIA_NAME, digits) <==> criterion == Some(digits)
      ensures ref == Print(INVARIANTS_NAME, digits) <==> invar == Some(digits)
    {
      DigitsOfPrint(CRITERIA_NAME, ref, digits);
      DigitsOfPrint(INVARIANTS_NAME, ref, digits);
    }
    if criterion.Some? && invar.Some? {
      NamesDiffer(criterion.value, invar.value);
    }
  }

  lemma DigitsAreDigits(name: string, ref: string)
    ensures Digits(name, ref).Some? ==> AllDigits(Digits(name, ref).value)
  {
  }

  /** Printing an index in range gives a reference the check accepts. */
  lemma PrintedIndexAccepted(s: Spec, n: nat)
    requires FitsInt(s)
    ensures n < s.criteria ==> CheckReference(s, Print(CRITERIA_NAME, Decimal(n))).None?
    ensures n < s.invariants ==> CheckReference(s, Print(INVARIANTS_NAME, Decimal(n))).None?
  {
    hide CheckReference;
    DecimalRoundTrip(n);
    CheckIsValidity(s, Print(CRITERIA_NAME, Decimal(n)));
    CheckIsValidity(s, Print(INVARIANTS_NAME, Decimal(n)));
  }

  // ---------------------------------------------------------------- all references, and the result

  function Opt(f: Option<Finding>): seq<Finding> {
    if f.Some? then [f.value] else []
  }

  function RefFindings(s: Spec, refs: seq<string>): seq<Finding> {
    if refs == [] then [] else RefFindings(s, refs[..|refs| - 1]) + Opt(CheckReference(s, refs[|refs| - 1]))
  }

  function ContractFindings(s: Spec, contracts: seq<TestContract>): seq<Finding> {
    if contracts == [] then []
    else ContractFindings(s, contracts[..|contracts| - 1]) + RefFindings(s, contracts[|contracts| - 1].mapsTo)
  }

  function OfSeverity(fs: seq<Finding>, severity: Severity): seq<Finding> {
    if fs == [] then []
    else OfSeverity(fs[..|fs| - 1], severity) + if fs[|fs| - 1].severity == severity then [fs[|fs| - 1]] else []
  }

  class ValidationResult {
    var ok: bool
    var errors: seq<Finding>
    var warnings: seq<Finding>

    /** The findings added so far, sorted into the two lists. */
    ghost predicate Holds(all: seq<Finding>)
      reads this
    {
      errors == OfSeverity(all, Fatal) && warnings == OfSeverity(all, Warning) && (ok <==> errors == [])
    }

    constructor ()
      ensures Holds([])
    {
      ok, errors, warnings := true, [], [];
    }

    /** The closure every rule reports through. */
    method Add(f: Finding, ghost all: seq<Finding>)
      requires Holds(all)
      modifies this
      ensures Holds(all + [f])
    {
      assert (all + [f])[..|all|] == all;
      if f.severity == Fatal {
        ok := false;
        errors := errors + [f];
      } else {
        warnings := warnings + [f];
      }
    }

    method AddAll(fs: seq<Finding>, ghost all: seq<Finding>)
      requires Holds(all)
      modifies this
      ensures Holds(all + fs)
    {
      assert all + [] == all;
      for i := 0 to |fs|
        invariant Holds(all + fs[..i])
      {
        assert all + fs[..i] + [fs[i]] == all + fs[..i + 1];
        Add(fs[i], all + fs[..i]);
      }
      assert fs[..|fs|] == fs;
    }

    method CheckTestContractReferences(s: Spec, ghost all: seq<Finding>)
      requires Holds(all)
      modifies this
      ensures Holds(all + ContractFindings(s, s.contracts))
    {
      hide Holds, ContractFindings, RefFindings, CheckReference, Opt;
      NoReferences(s, all);
      for i := 0 to |s.contracts|
        invariant Holds(all + ContractFindings(s, s.contracts[..i]))
      {
        var refs := s.contracts[i].mapsTo;
        ghost var done := all + ContractFindings(s, s.contracts[..i]);
        NoReferences(s, done);
        for j := 0 to |refs|
          invariant Holds(done + RefFindings(s, refs[..j]))
        {
          OneMoreReference(s, refs, j, done);
          var found := CheckReference(s, refs[j]);
          if found.Some? {
            Add(found.value, done + RefFindings(s, refs[..j]));
          }
        }
        assert refs[..|refs|] == refs;
        OneMoreContract(s, i, all);
      }
      assert s.contracts[..|s.contracts|] == s.contracts;
    }
  }

  lemma NoReferences(s: Spec, done: seq<Finding>)
    ensures done + RefFindings(s, []) == done && done + ContractFindings(s, []) == done
  {
    assert done + [] == done;
  }

  lemma OneMoreReference(s: Spec, refs: seq<string>, j: nat, done: seq<Finding>)
    requires j < |refs|
    ensures var (before, found) := (done + RefFindings(s, refs[..j]), CheckReference(s, refs[j]));
            done + RefFindings(s, refs[..j + 1]) == if found.Some? then before + [found.value] else before
  {
    hide CheckReference;
    assert refs[..j + 1][..j] == refs[..j];
  }

  lemma OneMoreContract(s: Spec, i: nat, all: seq<Finding>)
    requires i < |s.contracts|
    ensures all + ContractFindings(s, s.contracts[..i]) + RefFindings(s, s.contracts[i].mapsTo)
         == all + ContractFindings(s, s.contracts[..i + 1])
  {
    assert s.contracts[..i + 1][..i] == s.contracts[..i];
  }

  /** `Validate`. The findings of the rules that run before and after the reference check are given. */
  method Validate(s: Spec, before: seq<Finding>, after: seq<Finding>) returns (r: ValidationResult)
    ensures fresh(r)
    ensures r.ok <==> r.errors == []
    ensures r.errors == OfSeverity(before + ContractFindings(s, s.contracts) + after, Fatal)
    ensures r.warnings == OfSeverity(before + ContractFindings(s, s.contracts) + after, Warning)
  {
    r := new ValidationResult();
    r.AddAll(before, []);
    assert [] + before == before;
    r.CheckTestContractReferences(s, before);
    r.AddAll(after, before + ContractFindings(s, s.contracts));
  }

  lemma {:induction false} RefFindingsFatal(s: Spec, refs: seq<string>)
    ensures forall f :: f in RefFindings(s, refs) ==> f.severity == Fatal
    ensures RefFindings(s, refs) == [] <==> forall r :: r in refs ==> CheckReference(s, r).None?
  {
    hide CheckReference;
    if refs != [] {
      var front, last := refs[..|refs| - 1], refs[|refs| - 1];
      RefFindingsFatal(s, front);
      assert refs == front + [last];
      assert CheckReference(s, last).Some? ==> CheckReference(s, last).value.severity == Fatal by { CheckedFatal(s, last); }
    }
  }

  lemma CheckedFatal(s: Spec, ref: string)
    ensures CheckReference(s, ref).Some? ==> CheckReference(s, ref).value.severity == Fatal
  {
  }

  lemma {:induction false} ContractFindingsFatal(s: Spec, contracts: seq<TestContract>)
    ensures forall f :: f in ContractFindings(s, contracts) ==> f.severity == Fatal
    ensures ContractFindings(s, contracts) == [] <==>
            forall tc, r :: tc in contracts && r in tc.mapsTo ==> CheckReference(s, r).None?
  {
    hide CheckReference, RefFindings;
    if contracts != [] {
      var front, last := contracts[..|contracts| - 1], contracts[|contracts| - 1];
      ContractFindingsFatal(s, front);
      RefFindingsFatal(s, last.mapsTo);
      assert contracts == front + [last];
    }
  }

  lemma {:induction false} NoFatalMeansNone(fs: seq<Finding>)
    ensures OfSeverity(fs, Fatal) == [] <==> forall f :: f in fs ==> f.severity != Fatal
  {
    if fs != [] {
      NoFatalMeansNone(fs[..|fs| - 1]);
      assert fs == fs[..|fs| - 1] + [fs[|fs| - 1]];
    }
  }

  /** A result is OK exactly when no other rule reported something fatal and every reference of every test
      contract is valid. */
  lemma OkMeansReferencesValid(s: Spec, before: seq<Finding>, after: seq<Finding>)
    requires FitsInt(s)
    ensures OfSeverity(before + ContractFindings(s, s.contracts) + after, Fatal) == [] <==>
            && (forall f :: f in before || f in after ==> f.severity != Fatal)
            && forall tc, ref :: tc in s.contracts && ref in tc.mapsTo ==> ValidReference(s, ref)
  {
    hide CheckReference, ContractFindings, ValidReference, OfSeverity;
    var own := ContractFindings(s, s.contracts);
    NoFatalMeansNone(before + own + after);
    ContractFindingsFatal(s, s.contracts);
    assert own != [] ==> own[0] in own;
    forall ref ensures CheckReference(s, ref).None? <==> ValidReference(s, ref) { CheckIsValidity(s, ref); }
  }

  /** The two kinds of reference, as they are written: in range or not, and nothing else is one. */
  lemma ReferencesWritten(s: Spec, n: nat)
    requires FitsInt(s)
    ensures CheckReference(s, "acceptance_criteria[" + Decimal(n) + "]").None? <==> n < s.criteria
    ensures CheckReference(s, "invariants[" + Decimal(n) + "]").None? <==> n < s.invariants
  {
    hide CheckReference, Digits, ValueOf, Decimal;
    DecimalRoundTrip(n);
    var a, b := "acceptance_criteria[" + Decimal(n) + "]", "invariants[" + Decimal(n) + "]";
    assert a == Print(CRITERIA_NAME, Decimal(n)) && b == Print(INVARIANTS_NAME, Decimal(n));
    CheckIsValidity(s, a);
    CheckIsValidity(s, b);
    OneReading(s, a, CRITERIA_NAME, Decimal(n));
    OneReading(s, b, INVARIANTS_NAME, Decimal(n));
  }

  /** A reference can be read in one way only. */
  lemma OneReading(s: Spec, ref: string, name: string, digits: string)
    requires name == CRITERIA_NAME || name == INVARIANTS_NAME
    requires AllDigits(digits) && ref == Print(name, digits)
    ensures ValidReference(s, ref) <==> ValueOf(digits) < if name == CRITERIA_NAME then s.criteria else s.invariants
  {
    hide AllDigits, ValueOf, Digits;
    forall other | AllDigits(other)
      ensures ref == Print(name, other) ==> other == digits
      ensures ref != Print(if name == CRITERIA_NAME then INVARIANTS_NAME else CRITERIA_NAME, other)
    {
      DigitsOfPrint(name, ref, other);
      DigitsOfPrint(name, ref, digits);
      NamesDiffer(digits, other);
      NamesDiffer(other, digits);
    }
  }
}
