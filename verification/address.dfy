/** The shortened wallet address the page shows once connected
    (RepLen-frontend/script.js, `address.slice(0, 6) + '...' + address.slice(-4)`). */
module Address {

  import opened Numbers

  /** The first six characters, an ellipsis and the last four; JavaScript's
      slice keeps the whole string where it is shorter than that. */
  function ShortAddress(a: string): (r: string)
    ensures |r| == MinNat(6, |a|) + 3 + MinNat(4, |a|)
    ensures r[..MinNat(6, |a|)] == a[..MinNat(6, |a|)]
    ensures r[MinNat(6, |a|)..MinNat(6, |a|) + 3] == "..."
    ensures r[|r| - MinNat(4, |a|)..] == a[|a| - MinNat(4, |a|)..]
    ensures |a| == 42 ==> |r| == 13
  {
    a[..MinNat(6, |a|)] + "..." + a[|a| - MinNat(4, |a|)..]
  }

}
