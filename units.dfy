/**
 * Clean-up of the `Volume units` column.
 *
 * Rule 1 replaces every maximal run of characters outside 7-bit ASCII by
 * the two characters micro sign + 'L' (the regular expression
 * `[^\x00-\x7F]+` substituted left to right).  Rule 2 then replaces each
 * occurrence of micro sign + "LL" by micro sign + "L", left to right and
 * without overlap, as Python's `str.replace` does.
 */
module Units {

  /** The micro sign U+00B5 (itself outside ASCII). */
  const Micro: char := '\U{00B5}'

  /** The two-character replacement text of Rule 1. */
  const MicroL: string := [Micro, 'L']

  predicate IsAscii(c: char) {
    c as int < 0x80
  }

  predicate AllAscii(s: string) {
    forall i :: 0 <= i < |s| ==> IsAscii(s[i])
  }

  /**
   * The shape every normalised value has: its only non-ASCII character is
   * the micro sign, and every micro sign is immediately followed by 'L'.
   */
  predicate MicroPaired(s: string) {
    forall i :: 0 <= i < |s| && !IsAscii(s[i]) ==> s[i] == Micro && i + 1 < |s| && s[i + 1] == 'L'
  }

  /** Drops the maximal run of non-ASCII characters at the front of `s`. */
  function SkipNonAscii(s: string): (r: string)
    ensures |r| <= |s| && r == s[|s| - |r|..]
    ensures forall i :: 0 <= i < |s| - |r| ==> !IsAscii(s[i])
    ensures r == [] || IsAscii(r[0])
  {
    if s != [] && !IsAscii(s[0]) then
      var r := SkipNonAscii(s[1..]);
      assert s[1..][|s[1..]| - |r|..] == s[|s| - |r|..];
      assert forall i :: 1 <= i < |s| - |r| ==> s[i] == s[1..][i - 1];
      r
    else
      s
  }

  /** Rule 1: each maximal non-ASCII run becomes micro sign + 'L'. */
  function ReplaceNonAscii(s: string): (r: string)
    decreases |s|
  {
    if s == [] then []
    else if IsAscii(s[0]) then [s[0]] + ReplaceNonAscii(s[1..])
    else MicroL + ReplaceNonAscii(SkipNonAscii(s[1..]))
  }

  /** Rule 2: `str.replace("µLL", "µL")`, scanning left to right. */
  function ReplaceMicroLL(s: string): (r: string)
    ensures |r| <= |s|
    decreases |s|
  {
    if s == [] then []
    else if |s| >= 3 && s[0] == Micro && s[1] == 'L' && s[2] == 'L' then MicroL + ReplaceMicroLL(s[3..])
    else [s[0]] + ReplaceMicroLL(s[1..])
  }

  /** The value written to the `Volume units` column: Rule 1, then Rule 2. */
  function NormalizeUnits(s: string): string {
    ReplaceMicroLL(ReplaceNonAscii(s))
  }

  // ---------------------------------------------------------------------
  // Rule 1

  /** One step of Rule 1 on an ASCII character. */
  lemma ReplaceNonAsciiCons(c: char, s: string)
    requires IsAscii(c)
    ensures ReplaceNonAscii([c] + s) == [c] + ReplaceNonAscii(s)
  {
    assert ([c] + s)[0] == c;
    assert ([c] + s)[1..] == s;
  }

  /** ASCII text in front of the rest passes through Rule 1 unchanged and in order. */
  lemma {:induction false} ReplaceNonAsciiAsciiPrefix(p: string, s: string)
    requires AllAscii(p)
    ensures ReplaceNonAscii(p + s) == p + ReplaceNonAscii(s)
    decreases |p|
  {
    if p == [] {
      assert p + s == s;
    } else {
      var q := p[1..];
      assert p + s == [p[0]] + (q + s);
      ReplaceNonAsciiCons(p[0], q + s);
      ReplaceNonAsciiAsciiPrefix(q, s);
      assert p == [p[0]] + q;
    }
  }

  /** A whole non-ASCII run, however long, becomes exactly one micro sign + 'L'. */
  lemma {:induction false} ReplaceNonAsciiRun(run: string, s: string)
    requires run != [] && forall i :: 0 <= i < |run| ==> !IsAscii(run[i])
    requires s == [] || IsAscii(s[0])
    ensures ReplaceNonAscii(run + s) == MicroL + ReplaceNonAscii(s)
  {
    SkipRun(run[1..], s);
    assert (run + s)[1..] == run[1..] + s;
  }

  lemma {:induction false} SkipRun(run: string, s: string)
    requires forall i :: 0 <= i < |run| ==> !IsAscii(run[i])
    requires s == [] || IsAscii(s[0])
    ensures SkipNonAscii(run + s) == s
    decreases |run|
  {
    if run != [] {
      assert (run + s)[1..] == run[1..] + s;
      SkipRun(run[1..], s);
    } else {
      assert run + s == s;
    }
  }

  lemma PairedCons(c: char, s: string)
    requires IsAscii(c) && MicroPaired(s)
    ensures MicroPaired([c] + s)
  {
    forall i | 0 <= i < |[c] + s| && !IsAscii(([c] + s)[i])
      ensures ([c] + s)[i] == Micro && i + 1 < |[c] + s| && ([c] + s)[i + 1] == 'L'
    {
      assert ([c] + s)[i] == s[i - 1];
    }
  }

  lemma PairedMicroL(s: string)
    requires MicroPaired(s)
    ensures MicroPaired(MicroL + s)
  {
    forall i | 0 <= i < |MicroL + s| && !IsAscii((MicroL + s)[i])
      ensures (MicroL + s)[i] == Micro && i + 1 < |MicroL + s| && (MicroL + s)[i + 1] == 'L'
    {
      if i >= 2 {
        assert (MicroL + s)[i] == s[i - 2];
      }
    }
  }

  /** Every result of Rule 1 is micro-paired. */
  lemma {:induction false} ReplaceNonAsciiPaired(s: string)
    ensures MicroPaired(ReplaceNonAscii(s))
    decreases |s|
  {
    if s == [] {
    } else if IsAscii(s[0]) {
      ReplaceNonAsciiPaired(s[1..]);
      PairedCons(s[0], ReplaceNonAscii(s[1..]));
    } else {
      ReplaceNonAsciiPaired(SkipNonAscii(s[1..]));
      PairedMicroL(ReplaceNonAscii(SkipNonAscii(s[1..])));
    }
  }

  // ---------------------------------------------------------------------
  // Rule 2

  /** Rule 2 never changes the first character. */
  lemma {:induction false} ReplaceMicroLLHead(s: string)
    requires s != []
    ensures ReplaceMicroLL(s) != [] && ReplaceMicroLL(s)[0] == s[0]
  {
  }

  /** One step of Rule 2 on a character other than the micro sign. */
  lemma ReplaceMicroLLCons(c: char, s: string)
    requires c != Micro
    ensures ReplaceMicroLL([c] + s) == [c] + ReplaceMicroLL(s)
  {
    assert ([c] + s)[0] == c;
    assert ([c] + s)[1..] == s;
  }

  /** One step of Rule 2 on an occurrence of micro sign + "LL". */
  lemma ReplaceMicroLLTripleCons(s: string)
    ensures ReplaceMicroLL([Micro, 'L', 'L'] + s) == MicroL + ReplaceMicroLL(s)
  {
    assert ([Micro, 'L', 'L'] + s)[3..] == s;
  }

  /**
   * A micro sign not followed by "LL" is not the start of an occurrence:
   * Rule 2 keeps it and carries on with the next character.
   */
  lemma ReplaceMicroLLLoneMicro(s: string)
    requires !(|s| >= 2 && s[0] == 'L' && s[1] == 'L')
    ensures ReplaceMicroLL([Micro] + s) == [Micro] + ReplaceMicroLL(s)
  {
    assert ([Micro] + s)[1..] == s;
  }

  /**
   * Occurrences do not overlap and the result is not scanned again: in
   * micro sign + "LLL" only the first three characters are replaced.
   */
  lemma ReplaceMicroLLNoRescan()
    ensures ReplaceMicroLL([Micro, 'L', 'L', 'L']) == [Micro, 'L', 'L']
  {
    ReplaceMicroLLTripleCons("L");
    assert [Micro, 'L', 'L'] + "L" == [Micro, 'L', 'L', 'L'];
    ReplaceMicroLLCons('L', "");
    assert ['L'] + "" == "L";
    assert MicroL + "L" == [Micro, 'L', 'L'];
  }

  /** Text containing no micro sign passes through Rule 2 unchanged and in order. */
  lemma {:induction false} ReplaceMicroLLPlainPrefix(p: string, s: string)
    requires Micro !in p
    ensures ReplaceMicroLL(p + s) == p + ReplaceMicroLL(s)
    decreases |p|
  {
    if p == [] {
      assert p + s == s;
    } else {
      var q := p[1..];
      assert p + s == [p[0]] + (q + s);
      assert p[0] != Micro;
      ReplaceMicroLLCons(p[0], q + s);
      ReplaceMicroLLPlainPrefix(q, s);
      assert p == [p[0]] + q;
    }
  }

  /** Every suffix of a micro-paired string is micro-paired. */
  lemma PairedSuffix(s: string, n: nat)
    requires MicroPaired(s) && n <= |s|
    ensures MicroPaired(s[n..])
  {
    forall i | 0 <= i < |s[n..]| && !IsAscii(s[n..][i])
      ensures s[n..][i] == Micro && i + 1 < |s[n..]| && s[n..][i + 1] == 'L'
    {
      assert s[n..][i] == s[i + n];
    }
  }

  /** Rule 2 keeps a micro-paired value micro-paired. */
  lemma {:induction false} ReplaceMicroLLPaired(s: string)
    requires MicroPaired(s)
    ensures MicroPaired(ReplaceMicroLL(s))
    decreases |s|
  {
    if s == [] {
    } else if |s| >= 3 && s[0] == Micro && s[1] == 'L' && s[2] == 'L' {
      PairedSuffix(s, 3);
      ReplaceMicroLLPaired(s[3..]);
      PairedMicroL(ReplaceMicroLL(s[3..]));
    } else {
      var rest := s[1..];
      PairedSuffix(s, 1);
      ReplaceMicroLLPaired(rest);
      var r := ReplaceMicroLL(rest);
      if IsAscii(s[0]) {
        PairedCons(s[0], r);
      } else {
        assert s[0] == Micro && s[1] == 'L';
        ReplaceMicroLLHead(rest);
        assert r[0] == 'L';
        forall i | 0 <= i < |[s[0]] + r| && !IsAscii(([s[0]] + r)[i])
          ensures ([s[0]] + r)[i] == Micro && i + 1 < |[s[0]] + r| && ([s[0]] + r)[i + 1] == 'L'
        {
          if i > 0 {
            assert ([s[0]] + r)[i] == r[i - 1];
          }
        }
      }
    }
  }

  // ---------------------------------------------------------------------
  // The normaliser

  /** Every normalised value is micro-paired: in particular each micro sign is followed by 'L'. */
  lemma NormalizeUnitsPaired(s: string)
    ensures MicroPaired(NormalizeUnits(s))
    ensures forall i :: 0 <= i < |NormalizeUnits(s)| && NormalizeUnits(s)[i] == Micro ==>
              i + 1 < |NormalizeUnits(s)| && NormalizeUnits(s)[i + 1] == 'L'
  {
    ReplaceNonAsciiPaired(s);
    ReplaceMicroLLPaired(ReplaceNonAscii(s));
    assert !IsAscii(Micro);
  }

  /** A micro-paired value is left unchanged by the normaliser. */
  lemma {:induction false} NormalizeUnitsFixesPaired(t: string)
    requires MicroPaired(t)
    ensures NormalizeUnits(t) == t
    decreases |t|
  {
    if t == [] {
    } else if IsAscii(t[0]) {
      var rest := t[1..];
      PairedSuffix(t, 1);
      NormalizeUnitsFixesPaired(rest);
      assert t == [t[0]] + rest;
      ReplaceNonAsciiCons(t[0], rest);
      assert t[0] != Micro;
      ReplaceMicroLLCons(t[0], ReplaceNonAscii(rest));
    } else {
      assert t[0] == Micro && t[1] == 'L';
      var rest := t[2..];
      PairedSuffix(t, 2);
      NormalizeUnitsFixesPaired(rest);
      assert t == [Micro] + t[1..];
      assert t[1..] == ['L'] + rest;
      ReplaceNonAsciiRun([Micro], t[1..]);
      ReplaceNonAsciiCons('L', rest);
      var x := ReplaceNonAscii(rest);
      assert ReplaceNonAscii(t) == [Micro, 'L', 'L'] + x;
      ReplaceMicroLLTripleCons(x);
      assert MicroL + rest == t;
    }
  }

  /** The values the normaliser leaves unchanged are exactly the micro-paired ones. */
  lemma NormalizeUnitsFixpoints(t: string)
    ensures NormalizeUnits(t) == t <==> MicroPaired(t)
  {
    if MicroPaired(t) {
      NormalizeUnitsFixesPaired(t);
    } else {
      NormalizeUnitsPaired(t);
    }
  }

  /** Normalising twice is the same as normalising once. */
  lemma NormalizeUnitsIdempotent(s: string)
    ensures NormalizeUnits(NormalizeUnits(s)) == NormalizeUnits(s)
  {
    NormalizeUnitsPaired(s);
    NormalizeUnitsFixesPaired(NormalizeUnits(s));
  }

  /** Pure-ASCII values (for example "L", "mL", "Strips", "column") are unchanged. */
  lemma NormalizeUnitsAscii(s: string)
    requires AllAscii(s)
    ensures NormalizeUnits(s) == s
  {
    NormalizeUnitsFixesPaired(s);
  }

  /** ASCII text in front of a value passes through the whole normaliser unchanged and in order. */
  lemma NormalizeUnitsAsciiPrefix(p: string, s: string)
    requires AllAscii(p)
    ensures NormalizeUnits(p + s) == p + NormalizeUnits(s)
  {
    ReplaceNonAsciiAsciiPrefix(p, s);
    assert Micro !in p by { assert !IsAscii(Micro); }
    ReplaceMicroLLPlainPrefix(p, ReplaceNonAscii(s));
  }

  /** The five choices of the volume-units selector. */
  predicate IsSelectorChoice(u: string) {
    u == "L" || u == "mL" || u == MicroL || u == "Strips" || u == "column"
  }

  /** Every choice of the selector is micro-paired, so the normaliser leaves it unchanged. */
  lemma SelectorChoiceUnchanged(u: string)
    requires IsSelectorChoice(u)
    ensures NormalizeUnits(u) == u
  {
    assert MicroPaired(u) by {
      if u == MicroL {
        assert u[0] == Micro && u[1] == 'L';
      } else {
        assert AllAscii(u);
      }
    }
    NormalizeUnitsFixesPaired(u);
  }

  /**
   * The ASCII choices of the volume-units selector are left unchanged: four
   * worked instances of `SelectorChoiceUnchanged`.
   */
  lemma AsciiChoicesUnchanged()
    ensures NormalizeUnits("L") == "L"
    ensures NormalizeUnits("mL") == "mL"
    ensures NormalizeUnits("Strips") == "Strips"
    ensures NormalizeUnits("column") == "column"
  {
    NormalizeUnitsAscii("L");
    NormalizeUnitsAscii("mL");
    NormalizeUnitsAscii("Strips");
    NormalizeUnitsAscii("column");
  }

  /**
   * The micro-litre choice of the selector goes to micro sign + "LL" under
   * Rule 1 and back to micro sign + 'L' under Rule 2.  The second ensures is
   * the fifth instance of `SelectorChoiceUnchanged`; the first shows the
   * intermediate value.
   */
  lemma MicroLitreChoiceUnchanged()
    ensures ReplaceNonAscii(MicroL) == [Micro, 'L', 'L']
    ensures NormalizeUnits(MicroL) == MicroL
  {
    ReplaceNonAsciiRun([Micro], "L");
    ReplaceNonAsciiAsciiPrefix("L", "");
    assert [Micro] + "L" == MicroL;
    assert "L" + "" == "L";
    assert ReplaceNonAscii("") == "";
    ReplaceMicroLLTriple();
  }

  /** Rule 2 on micro sign + "LL" alone: `ReplaceMicroLLTripleCons` with nothing after it. */
  lemma ReplaceMicroLLTriple()
    ensures ReplaceMicroLL([Micro, 'L', 'L']) == MicroL
  {
    assert [Micro, 'L', 'L'][3..] == [];
    assert MicroL + [] == MicroL;
  }

  /**
   * A mis-decoded micro sign, that is any run of non-ASCII characters,
   * followed by 'L' normalises to micro sign + 'L'.
   */
  lemma MisencodedMicroLitre(run: string)
    requires run != [] && forall i :: 0 <= i < |run| ==> !IsAscii(run[i])
    ensures NormalizeUnits(run + "L") == MicroL
  {
    ReplaceNonAsciiRun(run, "L");
    ReplaceNonAsciiCons('L', "");
    assert ['L'] + "" == "L";
    assert ReplaceNonAscii("") == "";
    assert ReplaceNonAscii(run + "L") == [Micro, 'L', 'L'];
    ReplaceMicroLLTriple();
  }

  /**
   * The two-character mis-decodings of the micro sign seen in practice,
   * "Â" or "Å" followed by the micro sign, give micro sign + 'L' when
   * followed by 'L'.
   */
  lemma MisencodedExamples(first: char)
    requires first == '\U{00C2}' || first == '\U{00C5}'
    ensures NormalizeUnits([first, Micro, 'L']) == MicroL
  {
    MisencodedMicroLitre([first, Micro]);
    assert [first, Micro] + "L" == [first, Micro, 'L'];
  }
}
