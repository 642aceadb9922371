# Mortgage repayment calculator — Dafny model

A model of the `MortgageCalculator` form component: a loan amount, a term in
years, an annual interest rate and a mortgage type ("repayment" or
"interest"). Submitting the form validates it and, if every field is filled
in, computes the monthly payment and the total repaid over the term. "Clear
All" resets everything.

- `wrappers.dfy` — `Option`, for the result cell that starts out empty.
- `finance.dfy` (module `Finance`) — the arithmetic of the submit handler
  over exact reals: monthly rate, number of payments, the annuity payment
  (repayment mode), the interest-only payment, and the figures stored after a
  submit (`Calculate`). Next to the formulas sits an independent reference,
  `Balance`: the amount still owed after k months, where each month interest
  is charged and then one payment is made. The lemmas connect the two:
  - the annuity payment brings the balance to exactly zero in the last month;
  - the interest-only payment keeps the balance at the principal, which is
    repaid in one sum at the end;
  - a repayment mortgage at a positive rate repays at least the principal.
- `mortgage_form.dfy` (module `MortgageForm`) — the component itself. It is
  a class `MortgageCalculator` whose six fields are the component's six state
  cells. Its methods are:
  - the four field editors;
  - `ValidateForm`, which rebuilds the error map from scratch;
  - `CalculateRepayments`, the submit handler;
  - `ClearAll`.

  Small client methods at the end of the file walk through concrete
  sessions: an incomplete submit, an incomplete repayment form with a
  fractional term (only the missing amount is reported), an interest-only quote (200000 over 25
  years at 5% gives 833.33… a month and 450000 in total), a repayment quote
  at a zero rate, and a failed resubmit followed by a reset.

Conventions of the model:

- The text-to-number coercion of the inputs is the parameter
  `parse: string -> real` of `CalculateRepayments`.
- The error map is keyed by the `Field` datatype. Its four values stand for
  the keys `mortgageAmount`, `mortgageTerm`, `interestRate` and
  `mortgageType`.
- A repayment-mode result whose formula divides by zero is stored as
  `NonFinite`. This happens when (1+r)^n = 1, for instance at a zero rate or
  a zero term. The source does not guard this case. Floating point then
  yields NaN or Infinity, and the component stores and displays those
  figures. The model keeps this behaviour rather than rejecting the input.

Two facts about the code that the model keeps:

- The type is always "repayment" or "interest", so the `mortgageType` error
  at line 29 of src/components/mortgage-calculator.tsx can never occur
  (`TypeName`, `MissingFieldErrors`).
- The code checks neither the sign of the amount nor that the term is
  positive, and the model does not either.

## Model

| member | source | states |
|---|---|---|
| `Finance.Calculate` | src/components/mortgage-calculator.tsx:38-61 | In interest-only mode the figures always exist: the monthly payment is principal × (annual/100/12), and the total is the principal plus that payment times years × 12. In repayment mode the figures are non-finite exactly when (1+r)^n = 1, the divisor of the annuity formula. Otherwise the monthly payment m solves the annuity equation m·((1+r)^n − 1) = P·r·(1+r)^n, which fixes it as the quotient of lines 47-48, and the total is m times the number of payments. |
| `Finance.WholeCount` | src/components/mortgage-calculator.tsx:41 | A whole, non-negative real count of payments (years × 12) becomes the same natural number. |
| `Finance.AnnuityPayment` | src/components/mortgage-calculator.tsx:46-48 | Defined exactly when (1+r)^n ≠ 1, the divisor of line 48 being non-zero; then the payment m solves the annuity equation m·((1+r)^n − 1) = P·r·(1+r)^n. |
| `Finance.AnnuityDefinedness` | src/components/mortgage-calculator.tsx:46-48 | The annuity formula is defined for every positive rate with n > 0. It divides by zero when the rate is 0 or n = 0. |
| `Finance.RepaymentDefinedness` | src/components/mortgage-calculator.tsx:45-48 | Repayment figures exist whenever the rate and the term are positive. They are non-finite when the annual rate or the term is 0, which the source does not guard. |
| `Finance.AnnuityClearsLoan` | src/components/mortgage-calculator.tsx:46-48 | Any payment that solves the annuity equation, paid every month for n months, leaves a balance of exactly zero. |
| `Finance.ClearingPaymentIsAnnuity` | src/components/mortgage-calculator.tsx:46-48 | Conversely, a constant monthly payment that leaves a balance of exactly zero after n months is the annuity payment; together with `AnnuityClearsLoan`, the formula gives exactly the payment that clears the loan. |
| `Finance.RepaymentClearsLoan` | src/components/mortgage-calculator.tsx:45-53 | The monthly payment of repayment-mode figures pays the loan off exactly at the end of the term. |
| `Finance.AnnuityCoversPrincipal` | src/components/mortgage-calculator.tsx:46-48 | For a principal ≥ 0 and a rate > 0, the annuity payment is at least the interest-only payment P·r, and n payments add up to at least P. |
| `Finance.RepaymentTotalCoversPrincipal` | src/components/mortgage-calculator.tsx:45-59 | For a principal ≥ 0 and an annual rate > 0, repayment-mode figures repay at least the principal in total. Their monthly payment is at least the interest-only payment. |
| `Finance.InterestOnlyKeepsBalance` | src/components/mortgage-calculator.tsx:50 | Paying principal × r every month leaves the balance at the principal after any number of months. |
| `Finance.InterestOnlyRepaysBalloon` | src/components/mortgage-calculator.tsx:50-60 | The interest-only total is the monthly payments over the term plus the balance still owed at the end, which is the principal. |
| `MortgageForm.TypeName` | src/components/mortgage-calculator.tsx:17-19 | The stored mortgage type is never the empty string, and it is "repayment" exactly for the repayment type. |
| `MortgageForm.MissingFieldErrors` | src/components/mortgage-calculator.tsx:24-29 | The amount, term and rate keys are in the error map exactly when that field is empty, all reported together. Every message is "This field is required". The mortgage-type key never appears. The map is empty exactly when all three text fields are filled in. |
| `MortgageForm.MissingFieldErrorsUnique` | src/components/mortgage-calculator.tsx:24-29 | The error map is determined by which fields are empty: any map with those keys and that message is the validator's map. |
| `MortgageForm.MortgageCalculator.constructor` | src/components/mortgage-calculator.tsx:14-21 | On mount the three text fields are "", the type is repayment, there is no result and the error map is empty. |
| `MortgageForm.MortgageCalculator.SetMortgageAmount` | src/components/mortgage-calculator.tsx:108 | Overwrites the amount text. Every other cell is unchanged. |
| `MortgageForm.MortgageCalculator.SetMortgageTerm` | src/components/mortgage-calculator.tsx:134 | Overwrites the term text. Every other cell is unchanged. |
| `MortgageForm.MortgageCalculator.SetInterestRate` | src/components/mortgage-calculator.tsx:169 | Overwrites the rate text. Every other cell is unchanged. |
| `MortgageForm.MortgageCalculator.SetMortgageType` | src/components/mortgage-calculator.tsx:215-216 | Overwrites the mortgage type. Both radio buttons (the other at lines 244-245) go through it. Every other cell is unchanged. |
| `MortgageForm.MortgageCalculator.ValidateForm` | src/components/mortgage-calculator.tsx:23-33 | Replaces the error map by the errors of the current inputs; nothing of the previous map survives. Returns true exactly when the new map is empty. Only the error map changes. |
| `MortgageForm.MortgageCalculator.CalculateRepayments` | src/components/mortgage-calculator.tsx:35-62 | Always revalidates. On an incomplete form only the error map changes and the previous result stays. On a complete form the error map becomes empty and the result becomes the figures of the current inputs, whatever it held before. The inputs never change. |
| `MortgageForm.MortgageCalculator.ClearAll` | src/components/mortgage-calculator.tsx:64-71 | Whatever the prior state, the text fields become "", the type repayment, the result empty and the error map empty. Applying it twice therefore gives the same state as applying it once. |

## Left out

- Floating point: the model computes with exact reals. Rounding, overflow,
  and the NaN that the coercion gives for non-numeric text are not modelled.
  `NonFinite` stands for both NaN and Infinity figures.
- The text-to-number coercion is the abstract parameter `parse`. Its
  behaviour on particular strings is not modelled; for instance, it does not
  say that "" becomes 0.
- Finance.Calculate: in repayment mode it requires the term times 12 to be a
  whole, non-negative number of payments, because the power is modelled only
  for natural exponents. The source also raises to fractional or negative
  powers.
- MortgageForm.MortgageCalculator.CalculateRepayments: requires
  (`Calculable`) that a complete repayment-mode form has a term whose
  months are whole and non-negative, because on such a form the submit
  raises to that power. An incomplete form is accepted with any term, since
  it only gets errors and nothing is computed.
- Display formatting (two decimals, en-GB thousands separators, the "£"
  prefix) is a locale library and is not modelled.
- The JSX rendering, styling, the icon and the empty-state image are
  presentation only.
- The page that mounts the component (src/app/page.tsx) has no logic and is
  not modelled.
- React's scheduling and batching of state updates: each setter is an
  immediate field assignment within one sequential method.
