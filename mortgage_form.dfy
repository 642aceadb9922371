/**
 * The state machine of the `MortgageCalculator` component: six state cells,
 * a validator that rebuilds the error map, the submit handler that stores
 * fresh figures when the form is complete, the reset action and the four
 * field editors.  Rendering is not part of this model.
 */
module MortgageForm {
  import opened Wrappers
  import opened Finance

  /** The one error message the validator produces. */
  const Required := "This field is required"

  /** The keys of the error map: one per input of the form. */
  datatype Field = AmountField | TermField | RateField | TypeField

  const AllFields: set<Field> := {AmountField, TermField, RateField, TypeField}

  /** The value the radio group stores for each mortgage type; never empty. */
  function TypeName(t: MortgageType): (name: string)
    ensures name != ""
    ensures name == "repayment" <==> t == Repayment
  {
    match t
    case Repayment => "repayment"
    case Interest => "interest"
  }

  /** The four inputs of the form. */
  datatype FormInput = FormInput(
    mortgageAmount: string,
    mortgageTerm: string,
    interestRate: string,
    mortgageType: MortgageType)

  /** The text that the validator tests for a field. */
  function FieldText(input: FormInput, field: Field): (text: string)
  {
    match field
    case AmountField => input.mortgageAmount
    case TermField => input.mortgageTerm
    case RateField => input.interestRate
    case TypeField => TypeName(input.mortgageType)
  }

  /**
   * The error map the validator builds: one "required" entry per field
   * whose text is empty, all of them together.
   */
  function MissingFieldErrors(input: FormInput): (errors: map<Field, string>)
    ensures AmountField in errors <==> input.mortgageAmount == ""
    ensures TermField in errors <==> input.mortgageTerm == ""
    ensures RateField in errors <==> input.interestRate == ""
    ensures TypeField !in errors
    ensures forall k | k in errors :: errors[k] == Required
    ensures errors == map[] <==>
      input.mortgageAmount != "" && input.mortgageTerm != "" && input.interestRate != ""
  {
    var missing := map f | f in AllFields && FieldText(input, f) == "" :: Required;
    assert input.mortgageAmount == "" ==> AmountField in missing;
    assert input.mortgageTerm == "" ==> TermField in missing;
    assert input.interestRate == "" ==> RateField in missing;
    missing
  }

  /**
   * The error map is determined by which fields are empty: any map with
   * the required keys and messages, and no other keys, is that map.
   */
  lemma MissingFieldErrorsUnique(input: FormInput, errors: map<Field, string>)
    requires AmountField in errors <==> input.mortgageAmount == ""
    requires TermField in errors <==> input.mortgageTerm == ""
    requires RateField in errors <==> input.interestRate == ""
    requires TypeField !in errors
    requires forall k | k in errors :: errors[k] == Required
    ensures errors == MissingFieldErrors(input)
  {
    var spec := MissingFieldErrors(input);
    forall f: Field
      ensures f in errors <==> f in spec
    {
      match f
      case AmountField =>
      case TermField =>
      case RateField =>
      case TypeField =>
    }
  }

  /** A snapshot of the six state cells. */
  datatype FormState = FormState(
    mortgageAmount: string,
    mortgageTerm: string,
    interestRate: string,
    mortgageType: MortgageType,
    result: Option<CalculationResult>,
    errors: map<Field, string>)

  /** The state on mount and after "Clear All". */
  const Initial := FormState("", "", "", Repayment, None, map[])

  class MortgageCalculator {
    var mortgageAmount: string
    var mortgageTerm: string
    var interestRate: string
    var mortgageType: MortgageType
    var result: Option<CalculationResult>
    var errors: map<Field, string>

    function Inputs(): (input: FormInput)
      reads this
    {
      FormInput(mortgageAmount, mortgageTerm, interestRate, mortgageType)
    }

    function State(): (s: FormState)
      reads this
    {
      FormState(mortgageAmount, mortgageTerm, interestRate, mortgageType, result, errors)
    }

    /**
     * The inputs the real-number model can calculate: a complete form in
     * repayment mode must have a term that comes to a whole number of
     * monthly payments.  An incomplete form is never calculated, so any
     * term is allowed there.
     */
    predicate Calculable(parse: string -> real)
      reads this
    {
      mortgageType == Repayment && MissingFieldErrors(Inputs()) == map[] ==>
        IsWholeCount(parse(mortgageTerm) * 12.0)
    }

    constructor ()
      ensures State() == Initial
    {
      mortgageAmount, mortgageTerm, interestRate := "", "", "";
      mortgageType := Repayment;
      result := None;
      errors := map[];
    }

    method SetMortgageAmount(text: string)
      modifies this`mortgageAmount
      ensures State() == old(State()).(mortgageAmount := text)
    {
      mortgageAmount := text;
    }

    method SetMortgageTerm(text: string)
      modifies this`mortgageTerm
      ensures State() == old(State()).(mortgageTerm := text)
    {
      mortgageTerm := text;
    }

    method SetInterestRate(text: string)
      modifies this`interestRate
      ensures State() == old(State()).(interestRate := text)
    {
      interestRate := text;
    }

    method SetMortgageType(t: MortgageType)
      modifies this`mortgageType
      ensures State() == old(State()).(mortgageType := t)
    {
      mortgageType := t;
    }

    /**
     * Replaces the error map by the errors of the current inputs (nothing
     * of the previous map survives) and reports whether it is empty.
     */
    method ValidateForm() returns (valid: bool)
      modifies this`errors
      ensures errors == MissingFieldErrors(Inputs())
      ensures valid <==> errors == map[]
      ensures State() == old(State()).(errors := errors)
    {
      var newErrors: map<Field, string> := map[];
      if mortgageAmount == "" { newErrors := newErrors[AmountField := Required]; }
      if mortgageTerm == "" { newErrors := newErrors[TermField := Required]; }
      if interestRate == "" { newErrors := newErrors[RateField := Required]; }
      if TypeName(mortgageType) == "" { newErrors := newErrors[TypeField := Required]; }
      MissingFieldErrorsUnique(Inputs(), newErrors);
      errors := newErrors;
      valid := |newErrors.Keys| == 0;
    }

    /**
     * The submit handler.  On an incomplete form only the error map
     * changes; on a complete one the error map is emptied and the result
     * becomes the figures of the current inputs, whatever it was before.
     * `parse` is the text-to-number coercion.
     */
    method CalculateRepayments(parse: string -> real)
      requires Calculable(parse)
      modifies this`errors, this`result
      ensures errors == MissingFieldErrors(Inputs())
      ensures State() == old(State()).(errors := errors, result := result)
      ensures errors != map[] ==> result == old(result)
      ensures errors == map[] ==>
        result == Some(Calculate(parse(mortgageAmount), parse(mortgageTerm), parse(interestRate), mortgageType))
    {
      var valid := ValidateForm();
      if !valid {
        return;
      }
      var principal := parse(mortgageAmount);
      var years := parse(mortgageTerm);
      var annualPercent := parse(interestRate);
      result := Some(Calculate(principal, years, annualPercent, mortgageType));
    }

    /** "Clear All": every cell back to its default, whatever the state was. */
    method ClearAll()
      modifies this
      ensures State() == Initial
    {
      mortgageAmount := "";
      mortgageTerm := "";
      interestRate := "";
      mortgageType := Repayment;
      result := None;
      errors := map[];
    }
  }

  /** An incomplete form reports every empty field and keeps the empty result. */
  method IncompleteSubmit(parse: string -> real)
  {
    var c := new MortgageCalculator();
    c.SetMortgageAmount("200000");
    c.CalculateRepayments(parse);
    assert c.errors.Keys == {TermField, RateField};
    assert c.result == None;
  }

  /** A fractional term on an incomplete repayment form only reports the missing amount. */
  method IncompleteFractionalTerm(parse: string -> real)
    requires parse("2.55") == 2.55
  {
    var c := new MortgageCalculator();
    c.SetMortgageTerm("2.55");
    c.SetInterestRate("5");
    c.CalculateRepayments(parse);
    assert c.errors.Keys == {AmountField};
    assert c.result == None;
  }

  /** An interest-only quote for 200000 over 25 years at 5%. */
  method InterestOnlyQuote(parse: string -> real)
    requires parse("200000") == 200000.0 && parse("25") == 25.0 && parse("5") == 5.0
  {
    var c := new MortgageCalculator();
    c.SetMortgageAmount("200000");
    c.SetMortgageTerm("25");
    c.SetInterestRate("5");
    c.SetMortgageType(Interest);
    c.CalculateRepayments(parse);
    assert c.errors == map[];
    assert c.result == Some(Figures(2500.0 / 3.0, 450000.0));
  }

  /** Emptying a field and resubmitting keeps the last figures; a reset clears everything. */
  method FailedResubmitThenReset(c: MortgageCalculator, parse: string -> real)
    requires c.Calculable(parse)
    modifies c
  {
    var before := c.result;
    c.SetInterestRate("");
    c.CalculateRepayments(parse);
    assert RateField in c.errors;
    assert c.result == before;
    c.ClearAll();
    c.ClearAll();
    assert c.State() == Initial;
  }

  /** A repayment quote at a zero rate divides by zero. */
  method ZeroRateSession(parse: string -> real)
    requires parse("200000") == 200000.0 && parse("25") == 25.0 && parse("0") == 0.0
  {
    var c := new MortgageCalculator();
    c.SetMortgageAmount("200000");
    c.SetMortgageTerm("25");
    c.SetInterestRate("0");
    assert IsWholeCount(parse("25") * 12.0);
    c.CalculateRepayments(parse);
    RepaymentDefinedness(200000.0, 25.0, 0.0);
    assert c.result == Some(NonFinite);
  }
}
