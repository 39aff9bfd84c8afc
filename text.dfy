/** String helpers shared by the modules that build text: JavaScript's `Array.prototype.join`. */
module Text {
  /** `Array.prototype.join(sep)`. */
  function Join(xs: seq<string>, sep: string): string
  {
    if |xs| == 0 then ""
    else if |xs| == 1 then xs[0]
    else xs[0] + sep + Join(xs[1..], sep)
  }

  /** Every string of `ls`, each preceded by `sep`. */
  function Prefixed(ls: seq<string>, sep: string): string
  {
    if ls == [] then "" else sep + ls[0] + Prefixed(ls[1..], sep)
  }

  /** Joining a header with lines is the header followed by each line on its own. */
  lemma {:induction false} JoinHeader(h: string, ls: seq<string>, sep: string)
    ensures Join([h] + ls, sep) == h + Prefixed(ls, sep)
    decreases |ls|
  {
    if ls != [] {
      assert ([h] + ls)[1..] == [ls[0]] + ls[1..];
      JoinHeader(ls[0], ls[1..], sep);
    }
  }

}
