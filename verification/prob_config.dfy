/**
 * The validation every transition-probability configuration goes through
 * (`ProbabilisticStateConfig` in core/config.py): each field must be declared as a probability
 * number, lie in [0, 100], and all fields together must sum to 1 or to 100.
 */
module ProbConfig {
  import opened Wrappers
  import opened Engine

  /** The declared type of a configuration field. */
  datatype FieldKind = ProbValKind | FloatKind | IntKind | OtherKind(typeName: string)

  datatype Field = Field(name: string, kind: FieldKind, value: real)

  predicate NumericKind(k: FieldKind) { !k.OtherKind? }

  predicate InRange(v: real) { 0.0 <= v <= 100.0 }

  function Values(fields: seq<Field>): (r: seq<real>)
    ensures |r| == |fields| && forall i :: 0 <= i < |fields| ==> r[i] == fields[i].value
  {
    seq(|fields|, i requires 0 <= i < |fields| => fields[i].value)
  }

  /**
   * Loading a probability configuration: the field-type check, the per-field range check and the
   * sum check; a valid configuration comes back with its values unchanged.
   */
  function Validate(fields: seq<Field>): (r: Result<seq<Field>>)
    ensures r.Success? <==> AllNumeric(fields) && AllInRange(fields) && (Sum(Values(fields)) == 1.0 || Sum(Values(fields)) == 100.0)
    ensures r.Success? ==> r.value == fields
  {
    if !AllNumeric(fields) then Failure("Probabilistic config fields must be int or float!")
    else if !AllInRange(fields) then Failure("Probability value must be between 0.0 and 1.0 or 0 and 100!")
    else
      var total := Sum(Values(fields));
      if total == 1.0 || total == 100.0 then Success(fields)
      else Failure("Sum of all transition probabilities must be either 1.0 or 100")
  }

  /** Every field is declared as a number. */
  predicate AllNumeric(fields: seq<Field>)
  {
    forall i :: 0 <= i < |fields| ==> NumericKind(fields[i].kind)
  }

  /** Every value lies in [0, 100]. */
  predicate AllInRange(fields: seq<Field>)
  {
    forall i :: 0 <= i < |fields| ==> InRange(fields[i].value)
  }

  /** The sum of a list that holds `x` `n` times. */
  lemma {:induction false} SumConstant(s: seq<real>, x: real)
    requires forall i :: 0 <= i < |s| ==> s[i] == x
    ensures Sum(s) == |s| as real * x
    decreases |s|
  {
    if |s| > 0 {
      SumConstant(s[1..], x);
    }
  }

  /** `n` probability fields of `1/n` each form a valid configuration: the uniform distribution. */
  lemma UniformAccepted(fields: seq<Field>)
    requires |fields| > 0
    requires forall i :: 0 <= i < |fields| ==> NumericKind(fields[i].kind) && fields[i].value == 1.0 / |fields| as real
    ensures Validate(fields) == Success(fields)
  {
    var n := |fields| as real;
    Reciprocal(n);
    assert forall i :: 0 <= i < |fields| ==> InRange(fields[i].value);
    SumConstant(Values(fields), 1.0 / n);
  }

  lemma Reciprocal(n: real)
    requires n >= 1.0
    ensures 0.0 < 1.0 / n <= 1.0 && n * (1.0 / n) == 1.0
  {
  }

  /** A field declared with a non-numeric type makes the whole configuration fail, whatever its value. */
  lemma OtherKindRejected(fields: seq<Field>, i: nat)
    requires i < |fields| && fields[i].kind.OtherKind?
    ensures Validate(fields).Failure?
  {
  }
}
