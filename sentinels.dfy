/** The fixed list of placeholder tokens ("pick'em", "not listed", historical
    even-money abbreviations) that the scraper reads as a line of 0. */
module Sentinels {
  import opened Cells

  /** `self.blacklist`, with its repeated entries. */
  const Blacklist: seq<string> :=
    ["pk", "PK", "NL", "nl", "a100", "a100", "a105", "a105", "a110", "a110", ".5+03", ".5ev", "-"]

  /** `x in self.blacklist`: only a string can equal one of the tokens, and
      only exactly (case-sensitively). */
  predicate IsSentinel(c: Cell) {
    c.Text? && c.s in Blacklist
  }

  /** `lambda x: 0 if x in self.blacklist else x`. */
  function Normalize(c: Cell): (r: Cell)
    ensures IsSentinel(c) ==> r == Int(0)
    ensures !IsSentinel(c) ==> r == c
    ensures !IsSentinel(r)
  {
    if IsSentinel(c) then Int(0) else c
  }

  /** The repeated entries change nothing: the test is membership in ten
      distinct tokens. */
  lemma TenTokens(t: string)
    ensures t in Blacklist <==>
            t in {"pk", "PK", "NL", "nl", "a100", "a105", "a110", ".5+03", ".5ev", "-"}
  {
  }

  /** Normalising twice is normalising once, since 0 is not a token. */
  lemma NormalizeIdempotent(c: Cell)
    ensures Normalize(Normalize(c)) == Normalize(c)
  {
  }

  /** The test is exact: other spellings and real numbers written as text
      are not tokens. */
  lemma NormalizeExamples()
    ensures Normalize(Text("pk")) == Int(0) && Normalize(Text("-")) == Int(0)
    ensures Normalize(Text("Pk")) == Text("Pk")
    ensures Normalize(Text("-105")) == Text("-105")
    ensures Normalize(Int(0)) == Int(0) && Normalize(Nan) == Nan
  {
    assert "Pk" != "pk" && "Pk" != "PK";
    assert Text("Pk").s !in Blacklist;
    assert Text("-105").s !in Blacklist by {
      assert forall k :: 0 <= k < |Blacklist| ==> |Blacklist[k]| != 4 || Blacklist[k][0] != '-';
    }
  }
}
