/** What several components share: optional values and sums of reals. */
module Basics {

  datatype Option<+T> = None | Some(value: T)

  function Sum(s: seq<real>): real { if s == [] then 0.0 else Sum(s[..|s| - 1]) + s[|s| - 1] }
}
