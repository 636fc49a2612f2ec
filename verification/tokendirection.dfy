/** Whether a token count is for input or output. */
module TokenDirections {

  type TokenDirection = string

  const InputToken: TokenDirection := "input"
  const OutputToken: TokenDirection := "output"

  function String(td: TokenDirection): string {
    td
  }

  /** Exact, case-sensitive comparison with a string. */
  predicate Equals(td: TokenDirection, compare: string) {
    String(td) == compare
  }

  /** Unlike the role and the message kind, the direction comparison is case-sensitive. */
  lemma EqualsIsExact(td: TokenDirection, compare: string)
    ensures Equals(td, compare) <==> td == compare
    ensures !Equals(InputToken, "Input")
  {
  }

  /** `Set`'s switch: the two known texts, and no assignment otherwise. */
  function SetMapping(td: TokenDirection, value: string): (r: TokenDirection)
    ensures value == InputToken || value == OutputToken ==> r == value
    ensures value != InputToken && value != OutputToken ==> r == td
  {
    if value == "input" then InputToken
    else if value == "output" then OutputToken
    else td
  }

  /** `Set` has a value receiver; the result pairs the caller's direction
      afterwards with the value the method's copy received. */
  function Set(td: TokenDirection, value: string): (r: (TokenDirection, TokenDirection))
    ensures r.1 == SetMapping(td, value)
    ensures r.0 == td
  {
    (td, SetMapping(td, value))
  }

  lemma SetIsNoOp(td: TokenDirection, value: string)
    ensures Set(td, value).0 == td
    ensures Set(InputToken, OutputToken) == (InputToken, OutputToken)
  {
  }
}
