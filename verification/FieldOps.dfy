/** The arithmetic operations on field elements in limb form. */
module FieldOps {
  import opened Modular
  import opened Limbs
  import opened Multiply
  import opened Reduce

  /** memcpy of one short form. */
  method Copy(output: array<felem>, input: array<felem>)
    requires output.Length >= 10 && input.Length >= 10 && output != input
    modifies output
    ensures forall k :: 0 <= k < 10 ==> output[k] == input[k]
    ensures forall k :: 10 <= k < output.Length ==> output[k] == old(output[k])
    ensures Short(output) == Short(input)
  {
    for i := 0 to 10
      invariant forall k :: 0 <= k < i ==> output[k] == input[k]
      invariant forall k :: 10 <= k < output.Length ==> output[k] == old(output[k])
    {
      output[i] := input[i];
    }
    ValAgree(output[..], input[..], 10);
  }

  /** Sum two numbers: output += in. */
  method Fsum(output: array<felem>, in1: array<felem>)
    requires output.Length >= 10 && in1.Length >= 10 && output != in1
    requires forall k :: 0 <= k < 10 ==>
               -0x8000_0000_0000_0000 <= output[k] as int + in1[k] as int < 0x8000_0000_0000_0000
    modifies output
    ensures forall k :: 0 <= k < 10 ==> output[k] as int == old(output[k] as int) + in1[k] as int
    ensures forall k :: 10 <= k < output.Length ==> output[k] == old(output[k])
    ensures Short(output) == old(Short(output)) + Short(in1)
  {
    ghost var s := output[..];
    var i := 0;
    while i < 10
      invariant 0 <= i <= 10 && i % 2 == 0
      invariant forall k :: 0 <= k < i ==> output[k] as int == s[k] as int + in1[k] as int
      invariant forall k :: i <= k < output.Length ==> output[k] == s[k]
    {
      output[i] := output[i] + in1[i];
      output[i + 1] := output[i + 1] + in1[i + 1];
      i := i + 2;
    }
    ValSum(s, in1[..], output[..], 10);
  }

  /** Find the difference of two numbers: output = in - output. */
  method Fdifference(output: array<felem>, in1: array<felem>)
    requires output.Length >= 10 && in1.Length >= 10 && output != in1
    requires forall k :: 0 <= k < 10 ==>
               -0x8000_0000_0000_0000 <= in1[k] as int - output[k] as int < 0x8000_0000_0000_0000
    modifies output
    ensures forall k :: 0 <= k < 10 ==> output[k] as int == in1[k] as int - old(output[k] as int)
    ensures forall k :: 10 <= k < output.Length ==> output[k] == old(output[k])
    ensures Short(output) == Short(in1) - old(Short(output))
  {
    ghost var s := output[..];
    for i := 0 to 10
      invariant forall k :: 0 <= k < i ==> output[k] as int == in1[k] as int - s[k] as int
      invariant forall k :: i <= k < output.Length ==> output[k] == s[k]
    {
      output[i] := in1[i] - output[i];
    }
    ValSum(output[..], s, in1[..], 10);
  }

  /** Multiply a number by a scalar: output = in * scalar. */
  method FscalarProduct(output: array<felem>, in1: array<felem>, scalar: felem)
    requires output.Length >= 10 && in1.Length >= 10 && output != in1
    requires 0 <= scalar <= 0x20000 && Within(in1, FACTOR_MAX)
    modifies output
    ensures Within(output, PRODUCT_MAX)
    ensures forall k :: 10 <= k < output.Length ==> output[k] == old(output[k])
    ensures Short(output) == (scalar as int) * Short(in1)
  {
    for i := 0 to 10
      invariant forall k :: 0 <= k < i ==> output[k] as int == (scalar as int) * (in1[k] as int)
      invariant forall k :: 0 <= k < i ==> -PRODUCT_MAX <= output[k] as int <= PRODUCT_MAX
      invariant forall k :: 10 <= k < output.Length ==> output[k] == old(output[k])
    {
      MulBound(in1[i] as int, scalar as int, FACTOR_MAX, 0x20000);
      output[i] := in1[i] * scalar;
    }
    ValScale(in1[..], output[..], scalar as int, 10);
  }

  /** `fproduct`, `freduce_degree` and `freduce_coefficients` in a row. */
  method MulReduce(output: array<felem>, in2: array<felem>, in1: array<felem>)
    requires output.Length == 19 && in2.Length >= 10 && in1.Length >= 10
    requires output != in2 && output != in1
    requires Within(in2, FACTOR_MAX) && Within(in1, FACTOR_MAX)
    modifies output
    ensures Reduced(output)
    ensures Cong(Short(output), Short(in2) * Short(in1), P)
  {
    Fproduct(output, in2, in1);
    ReduceProduct(output, in2[..10], in1[..10]);
    ValAgree(in2[..], in2[..10], 10);
    ValAgree(in1[..], in1[..10], 10);
  }

  method ReduceProduct(output: array<felem>, ghost a: Factor, ghost b: Factor)
    requires output.Length == 19
    requires HoldsProduct(output[..], a, b)
    modifies output
    ensures Reduced(output)
    ensures Cong(Short(output), Val(a, 10) * Val(b, 10), P)
  {
    ProductValue(output[..], a, b);
    assert forall k :: 0 <= k < 19 ==> IsCoefficient(output[..][k], a, b, k);
    FreduceDegree(output);
    FreduceCoefficients(output);
  }

  /** output = in * in2, reduced. */
  method Fmul(output: array<felem>, in1: array<felem>, in2: array<felem>)
    requires output.Length >= 10 && in1.Length >= 10 && in2.Length >= 10
    requires Within(in1, FACTOR_MAX) && Within(in2, FACTOR_MAX)
    modifies output
    ensures Reduced(output)
    ensures Cong(Short(output), old(Short(in1)) * old(Short(in2)), P)
  {
    var t := new felem[19];
    MulReduce(t, in1, in2);
    Copy(output, t);
  }

  /** output = in * in, reduced. */
  method Fsquare(output: array<felem>, in1: array<felem>)
    requires output.Length >= 10 && in1.Length >= 10
    requires Within(in1, FACTOR_MAX)
    modifies output
    ensures Reduced(output)
    ensures Cong(Short(output), old(Short(in1)) * old(Short(in1)), P)
  {
    var t := new felem[19];
    FsquareInner(t, in1);
    ValAgree(in1[..], in1[..10], 10);
    ReduceProduct(t, in1[..10], in1[..10]);
    Copy(output, t);
  }
}
