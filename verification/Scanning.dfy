/** Prefix scanning, which replaces the small regular expressions of the source. */
module Scanning {

  /** Length of the longest prefix of s whose characters all satisfy p. */
  function Run(s: string, p: char -> bool): (n: nat)
    ensures n <= |s|
    ensures forall i :: 0 <= i < n ==> p(s[i])
    ensures n < |s| ==> !p(s[n])
  {
    if s == [] || !p(s[0]) then 0 else 1 + Run(s[1..], p)
  }

  /** The two facts in Run's contract determine it. */
  lemma RunIs(s: string, p: char -> bool, n: nat)
    requires n <= |s|
    requires forall i :: 0 <= i < n ==> p(s[i])
    requires n < |s| ==> !p(s[n])
    ensures Run(s, p) == n
  {
    var r := Run(s, p);
    if r != n { assert false; }
  }

  /** Run stops where a block of accepted characters meets a refused one. */
  lemma RunBlock(block: string, rest: string, p: char -> bool)
    requires forall c :: c in block ==> p(c)
    requires rest == [] || !p(rest[0])
    ensures Run(block + rest, p) == |block|
  {
    var s := block + rest;
    assert forall i :: 0 <= i < |block| ==> s[i] == block[i] && block[i] in block;
    RunIs(s, p, |block|);
  }

  lemma TextsAssociate(a: string, b: string, c: string, d: string)
    ensures (a + b + c) + d == a + (b + (c + d))
  {
  }

  lemma CutAfter(a: string, b: string)
    ensures (a + b)[..|a|] == a && (a + b)[|a|..] == b
  {
  }
}
