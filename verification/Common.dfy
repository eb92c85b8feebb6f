/** What several modules share. */
module Common {
  datatype Option<+T> = None | Some(value: T)

  // The sequence without its i-th element.
  function Without<T>(s: seq<T>, i: nat): (r: seq<T>)
    requires i < |s|
  {
    s[..i] + s[i + 1..]
  }

  function Min(x: nat, y: nat): (m: nat) {
    if x <= y then x else y
  }
}
