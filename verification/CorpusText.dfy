/** Normalising corpus text: byte-order mark, newlines, canonical composition and outer whitespace. */
module CorpusText {
  const BOM: char := '\U{FEFF}'

  function RemoveBom(text: string): string { if text != "" && text[0] == BOM then text[1..] else text }

  function ReplaceCrLf(text: string): string {
    if text == "" then ""
    else if |text| > 1 && text[0] == '\r' && text[1] == '\n' then "\n" + ReplaceCrLf(text[2..])
    else [text[0]] + ReplaceCrLf(text[1..])
  }

  function ReplaceCr(text: string): string {
    if text == "" then "" else [if text[0] == '\r' then '\n' else text[0]] + ReplaceCr(text[1..])
  }

  function Lf(text: string): string { ReplaceCr(ReplaceCrLf(text)) }

  /** Canonical composition, known only by how it treats a split after a newline. */
  type Composer = string -> string

  predicate EndsLine(text: string) { text != "" && text[|text| - 1] == '\n' }

  ghost predicate ComposerOk(nfc: Composer) {
    forall a, b: string | EndsLine(a) :: nfc(a + b) == nfc(a) + nfc(b)
  }

  function Core(text: string, nfc: Composer): string { nfc(Lf(RemoveBom(text))) }

  // ----- splitting after a newline -----

  lemma CrLfPair(rest: string)
    ensures ReplaceCrLf("\r\n" + rest) == "\n" + ReplaceCrLf(rest)
  {
    assert ("\r\n" + rest)[2..] == rest;
  }

  lemma CrLfOther(c: char, rest: string)
    requires c != '\r' || rest == "" || rest[0] != '\n'
    ensures ReplaceCrLf([c] + rest) == [c] + ReplaceCrLf(rest)
  {
    assert ([c] + rest)[1..] == rest;
  }

  lemma NoCrLf()
    ensures ReplaceCrLf("") == ""
  {
  }

  lemma {:induction false} CrLfSplits(a: string, b: string)
    requires EndsLine(a)
    ensures ReplaceCrLf(a + b) == ReplaceCrLf(a) + ReplaceCrLf(b)
    ensures EndsLine(ReplaceCrLf(a))
  {
    hide ReplaceCrLf;
    NoCrLf();
    if |a| > 1 && a[0] == '\r' && a[1] == '\n' {
      var rest := a[2..];
      assert a == "\r\n" + rest && a + b == "\r\n" + (rest + b);
      CrLfPair(rest);
      CrLfPair(rest + b);
      if rest != "" {
        CrLfSplits(rest, b);
      } else {
        assert rest + b == b;
      }
    } else {
      var rest := a[1..];
      assert a == [a[0]] + rest && a + b == [a[0]] + (rest + b);
      CrLfOther(a[0], rest);
      CrLfOther(a[0], rest + b);
      if rest != "" {
        CrLfSplits(rest, b);
      } else {
        assert rest + b == b;
      }
    }
  }

  lemma {:induction false} CrSplits(a: string, b: string)
    ensures ReplaceCr(a + b) == ReplaceCr(a) + ReplaceCr(b)
    ensures EndsLine(a) ==> EndsLine(ReplaceCr(a))
  {
    if a == "" {
      assert a + b == b;
    } else {
      assert (a + b)[1..] == a[1..] + b;
      CrSplits(a[1..], b);
    }
  }

  lemma LfSplits(a: string, b: string)
    requires EndsLine(a)
    ensures Lf(a + b) == Lf(a) + Lf(b) && EndsLine(Lf(a))
  {
    hide ReplaceCr, ReplaceCrLf;
    CrLfSplits(a, b);
    CrSplits(ReplaceCrLf(a), ReplaceCrLf(b));
  }

  /** A CR LF pair and a lone CR each become one LF, and nothing else changes. */
  lemma NewlinesBecomeLf(c: char, rest: string)
    ensures Lf("") == ""
    ensures Lf("\r\n" + rest) == "\n" + Lf(rest)
    ensures (rest == "" || rest[0] != '\n') ==> Lf("\r" + rest) == "\n" + Lf(rest)
    ensures c != '\r' ==> Lf([c] + rest) == [c] + Lf(rest)
  {
    hide ReplaceCrLf;
    NoCrLf();
    CrLfPair(rest);
    if c != '\r' {
      CrLfOther(c, rest);
    }
    if rest == "" || rest[0] != '\n' {
      CrLfOther('\r', rest);
      assert "\r" == ['\r'];
    }
    var kept := ReplaceCrLf(rest);
    assert ("\n" + kept)[1..] == kept && ([c] + kept)[1..] == kept && ("\r" + kept)[1..] == kept;
  }

  /** One byte-order mark is dropped from the front. */
  lemma MarkIsDropped(text: string)
    ensures RemoveBom([BOM] + text) == text
    ensures (text == "" || text[0] != BOM) ==> RemoveBom(text) == text
  {
  }

  lemma EmptyCore(nfc: Composer)
    requires ComposerOk(nfc)
    ensures Core("", nfc) == ""
  {
    var a, b: string := "\n", "";
    assert EndsLine(a);
    assert nfc(a + b) == nfc(a) + nfc(b);
    assert a + b == a;
    assert |nfc(a)| == |nfc(a)| + |nfc(b)|;
  }

  /** Normalising distributes over a split after a newline, unless a byte-order mark follows it. */
  lemma CoreSplits(a: string, b: string, nfc: Composer)
    requires ComposerOk(nfc) && EndsLine(a) && (b == "" || b[0] != BOM)
    ensures Core(a + b, nfc) == Core(a, nfc) + Core(b, nfc)
  {
    hide Lf;
    var bare := RemoveBom(a);
    assert RemoveBom(a + b) == bare + b;
    assert EndsLine(bare);
    LfSplits(bare, b);
  }

  // ----- outer whitespace -----

  type Spaces = char -> bool

  /** How many characters lstrip removes. */
  function Lead(s: string, space: Spaces): (r: nat)
    ensures r <= |s|
  {
    if s == "" || !space(s[0]) then 0 else 1 + Lead(s[1..], space)
  }

  /** How many characters rstrip keeps. */
  function End(s: string, space: Spaces): (r: nat)
    ensures r <= |s|
  {
    if s == "" then 0 else if !space(s[|s| - 1]) then |s| else End(s[..|s| - 1], space)
  }

  predicate Blank(s: string, space: Spaces) { forall c | c in s :: space(c) }

  function Strip(s: string, space: Spaces): string {
    if End(s, space) < Lead(s, space) then "" else s[Lead(s, space)..End(s, space)]
  }

  lemma {:induction false} LeadIs(s: string, space: Spaces)
    ensures forall k | 0 <= k < Lead(s, space) :: space(s[k])
    ensures Lead(s, space) < |s| ==> !space(s[Lead(s, space)])
  {
    if s != "" && space(s[0]) {
      LeadIs(s[1..], space);
      forall k | 0 <= k < Lead(s, space)
        ensures space(s[k])
      {
        if k > 0 {
          assert s[1..][k - 1] == s[k];
        }
      }
    }
  }

  lemma {:induction false} EndIs(s: string, space: Spaces)
    ensures forall k | End(s, space) <= k < |s| :: space(s[k])
    ensures End(s, space) > 0 ==> !space(s[End(s, space) - 1])
  {
    if s != "" && space(s[|s| - 1]) {
      EndIs(s[..|s| - 1], space);
    }
  }

  lemma {:induction false} BlankLead(s: string, space: Spaces)
    requires Blank(s, space)
    ensures Lead(s, space) == |s|
  {
    if s != "" {
      assert s[0] in s && forall c | c in s[1..] :: c in s;
      BlankLead(s[1..], space);
    }
  }

  /** Stripping gives nothing exactly on blank text; otherwise it starts and ends on ink. */
  lemma StripIs(s: string, space: Spaces)
    ensures Strip(s, space) == "" <==> Blank(s, space)
    ensures Strip(s, space) != "" ==>
              Lead(s, space) < End(s, space) && !space(s[Lead(s, space)]) && !space(s[End(s, space) - 1])
  {
    LeadIs(s, space);
    EndIs(s, space);
    if Blank(s, space) {
      BlankLead(s, space);
    } else {
      var k :| 0 <= k < |s| && !space(s[k]);
      assert Lead(s, space) <= k < End(s, space);
    }
  }
}
