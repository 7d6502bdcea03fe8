/** Small arithmetic shared by the demo modules. */
module Numbers {

  /** Math.min on two counts. */
  function MinNat(a: nat, b: nat): nat
  {
    if a <= b then a else b
  }

}
