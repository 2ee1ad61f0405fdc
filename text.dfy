/** Small string helpers shared by the parsers of the model. */
module Text {
  import opened Wrappers

  /** The first position of `c` in `s`. */
  function IndexOf(s: string, c: char): (k: Option<nat>)
    ensures k.Some? ==> k.value < |s| && s[k.value] == c && forall j :: 0 <= j < k.value ==> s[j] != c
    ensures k.None? ==> forall j :: 0 <= j < |s| ==> s[j] != c
  {
    if s == [] then None
    else if s[0] == c then Some(0)
    else match IndexOf(s[1..], c)
      case Some(k) => Some(k + 1)
      case None => None
  }
}
