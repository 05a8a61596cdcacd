/** Small value types shared by the modules of the paint editor model. */
module Common {

  /** A value that may be absent: `undefined`/`null` in the editor, NaN for a failed parse. */
  datatype Option<+T> = None | Some(value: T)

  function AbsInt(n: int): (r: nat)
    ensures r == n || r == -n
  {
    if n < 0 then -n else n
  }
}
