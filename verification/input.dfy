/**
 * `cleanInput` of main.go: trim the line, lower-case it and split it into
 * words at white space (`strings.TrimSpace`, `strings.ToLower`,
 * `strings.Fields`).  Characters are restricted to ASCII white space and
 * ASCII letters for case; every other character is left as it is.
 */
module Input {

  /** White space as `unicode.IsSpace` sees it in ASCII: space, \t, \n, \v, \f and \r. */
  predicate IsSpace(c: char)
  {
    c == ' ' || c == '\t' || c == '\n' || c == '\U{000B}' || c == '\U{000C}' || c == '\r'
  }

  predicate IsUpper(c: char)
  {
    'A' <= c <= 'Z'
  }

  predicate AllSpace(s: string)
  {
    forall i :: 0 <= i < |s| ==> IsSpace(s[i])
  }

  predicate NoSpace(s: string)
  {
    forall i :: 0 <= i < |s| ==> !IsSpace(s[i])
  }

  predicate NoUpper(s: string)
  {
    forall i :: 0 <= i < |s| ==> !IsUpper(s[i])
  }

  /** A word as `strings.Fields` yields it: not empty and free of white space. */
  predicate IsWord(w: string)
  {
    w != [] && NoSpace(w)
  }

  // ---------------------------------------------------------------------------
  // strings.ToLower

  /** `unicode.ToLower` on one character: only 'A'..'Z' change. */
  function LowerChar(c: char): (d: char)
    ensures !IsUpper(d)
    ensures !IsUpper(c) ==> d == c
    ensures IsUpper(c) ==> 'a' <= d <= 'z' && d as int - 'a' as int == c as int - 'A' as int
    ensures IsSpace(d) <==> IsSpace(c)
  {
    if IsUpper(c) then (c as int + 32) as char else c
  }

  /** `strings.ToLower`: the text, character by character, in lower case. */
  function Lower(s: string): string
  {
    seq(|s|, i requires 0 <= i < |s| => LowerChar(s[i]))
  }

  lemma LowerAppend(a: string, b: string)
    ensures Lower(a + b) == Lower(a) + Lower(b)
  {
  }

  lemma LowerKeepsLowerCase(s: string)
    requires NoUpper(s)
    ensures Lower(s) == s
  {
  }

  // ---------------------------------------------------------------------------
  // strings.TrimSpace

  /** The number of white-space characters the text starts with. */
  function LeadingSpace(s: string): (n: nat)
    ensures n <= |s| && AllSpace(s[..n])
    ensures n < |s| ==> !IsSpace(s[n])
  {
    if s != [] && IsSpace(s[0]) then 1 + LeadingSpace(s[1..]) else 0
  }

  /** The number of white-space characters the text ends with. */
  function TrailingSpace(s: string): (n: nat)
    ensures n <= |s| && AllSpace(s[|s| - n..])
    ensures n < |s| ==> !IsSpace(s[|s| - n - 1])
  {
    if s != [] && IsSpace(s[|s| - 1]) then 1 + TrailingSpace(s[..|s| - 1]) else 0
  }

  /**
   * `strings.TrimSpace`: the slice of the text after its leading white space,
   * with nothing but white space after it, that neither starts nor ends with
   * white space.
   */
  function TrimSpace(s: string): (r: string)
    ensures r == [] || (!IsSpace(r[0]) && !IsSpace(r[|r| - 1]))
    ensures LeadingSpace(s) + |r| <= |s|
    ensures r == s[LeadingSpace(s)..LeadingSpace(s) + |r|]
    ensures AllSpace(s[LeadingSpace(s) + |r|..])
  {
    var start := LeadingSpace(s);
    if start == |s| then [] else s[start..|s| - TrailingSpace(s)]
  }

  /** The text is its leading white space, then the trimmed text, then white space. */
  lemma TrimSpaceSplit(s: string)
    ensures var i := LeadingSpace(s);
      var r := TrimSpace(s);
      s == s[..i] + r + s[i + |r|..] && AllSpace(s[..i]) && AllSpace(s[i + |r|..])
  {
    SliceSplit(s, LeadingSpace(s), LeadingSpace(s) + |TrimSpace(s)|);
  }

  lemma SplitFirst(a: string, sep: string, b: string)
    requires sep != []
    ensures a + sep + b == a + [sep[0]] + (sep[1..] + b)
  {
    assert sep == [sep[0]] + sep[1..];
  }

  lemma SliceSplit(s: string, i: nat, j: nat)
    requires i <= j <= |s|
    ensures s == s[..i] + s[i..j] + s[j..]
  {
  }

  // ---------------------------------------------------------------------------
  // strings.Fields

  /** The length of the run of non-space characters at the start of `s`. */
  function WordLen(s: string): (n: nat)
    ensures n <= |s|
    ensures forall i :: 0 <= i < n ==> !IsSpace(s[i])
    ensures n < |s| ==> IsSpace(s[n])
  {
    if s == [] || IsSpace(s[0]) then 0 else 1 + WordLen(s[1..])
  }

  /**
   * `strings.Fields`: the maximal runs of non-space characters, in order.
   * Every field is a word, and a text without upper-case letters has none
   * in its fields.
   */
  function Fields(s: string): (r: seq<string>)
    ensures forall w :: w in r ==> IsWord(w)
    ensures NoUpper(s) ==> forall w :: w in r ==> NoUpper(w)
    decreases |s|
  {
    if s == [] then []
    else if IsSpace(s[0]) then Fields(s[1..])
    else
      var n := WordLen(s);
      [s[..n]] + Fields(s[n..])
  }

  /** `strings.Join(ws, " ")`. */
  function Join(ws: seq<string>): string
  {
    if ws == [] then []
    else if |ws| == 1 then ws[0]
    else ws[0] + " " + Join(ws[1..])
  }

  /** The words run together. */
  function Concat(ws: seq<string>): string
  {
    if ws == [] then [] else ws[0] + Concat(ws[1..])
  }

  /** The non-space characters of the text, in order. */
  function NonSpace(s: string): (r: string)
    ensures NoSpace(r)
  {
    if s == [] then []
    else if IsSpace(s[0]) then NonSpace(s[1..])
    else [s[0]] + NonSpace(s[1..])
  }

  // ---------------------------------------------------------------------------
  // cleanInput

  /**
   * `cleanInput`: the words of the line, trimmed and lower-cased.  Every word
   * is non-empty, contains no white space and no upper-case letter.
   */
  function CleanInput(text: string): (words: seq<string>)
    ensures forall w :: w in words ==> IsWord(w) && NoUpper(w)
  {
    Fields(Lower(TrimSpace(text)))
  }

  // ---------------------------------------------------------------------------
  // Properties of Fields

  /** A space right after `a` ends the first word of `a + [c] + b` where the word of `a` ends. */
  lemma {:induction false} WordLenBeforeSpace(a: string, c: char, b: string)
    requires IsSpace(c)
    ensures WordLen(a + [c] + b) == WordLen(a)
    decreases |a|
  {
    if a != [] && !IsSpace(a[0]) {
      assert (a + [c] + b)[1..] == a[1..] + [c] + b;
      WordLenBeforeSpace(a[1..], c, b);
    }
  }

  /** Leading white space does not change the fields. */
  lemma {:induction false} FieldsLeadingSpace(sp: string, x: string)
    requires AllSpace(sp)
    ensures Fields(sp + x) == Fields(x)
    decreases |sp|
  {
    if sp == [] {
      assert sp + x == x;
    } else {
      assert (sp + x)[1..] == sp[1..] + x;
      FieldsLeadingSpace(sp[1..], x);
    }
  }

  /**
   * Any white-space character separates words: the fields of `a + [c] + b`
   * are those of `a` followed by those of `b`, for a tab or a newline just as
   * for a space.
   */
  lemma {:induction false} FieldsSplit(a: string, c: char, b: string)
    requires IsSpace(c)
    ensures Fields(a + [c] + b) == Fields(a) + Fields(b)
    decreases |a|
  {
    var s := a + [c] + b;
    if a == [] {
      assert s[1..] == b;
    } else if IsSpace(a[0]) {
      assert s[1..] == a[1..] + [c] + b;
      FieldsSplit(a[1..], c, b);
    } else {
      var n := WordLen(a);
      WordLenBeforeSpace(a, c, b);
      assert s[..n] == a[..n];
      assert s[n..] == a[n..] + [c] + b;
      FieldsSplit(a[n..], c, b);
    }
  }

  /** Trailing white space does not change the fields. */
  lemma FieldsTrailingSpace(x: string, sp: string)
    requires AllSpace(sp)
    ensures Fields(x + sp) == Fields(x)
  {
    if sp == [] {
      assert x + sp == x;
    } else {
      assert x + sp == x + [sp[0]] + sp[1..];
      FieldsSplit(x, sp[0], sp[1..]);
      FieldsLeadingSpace(sp[1..], []);
      assert sp[1..] + [] == sp[1..];
    }
  }

  /** A single word is its own only field. */
  lemma FieldsOfWord(w: string)
    requires IsWord(w)
    ensures Fields(w) == [w]
  {
    assert w[..|w|] == w;
  }

  /** The text has no fields exactly when it is all white space. */
  lemma {:induction false} FieldsEmpty(s: string)
    ensures Fields(s) == [] <==> AllSpace(s)
    decreases |s|
  {
    if s != [] && IsSpace(s[0]) {
      FieldsEmpty(s[1..]);
      assert AllSpace(s) <==> AllSpace(s[1..]) by {
        assert forall i :: 0 < i < |s| ==> s[i] == s[1..][i - 1];
      }
    }
  }

  /** Joining words with single spaces and splitting again gives the words back. */
  lemma {:induction false} FieldsJoin(ws: seq<string>)
    requires forall w :: w in ws ==> IsWord(w)
    ensures Fields(Join(ws)) == ws
    decreases |ws|
  {
    if |ws| == 1 {
      FieldsOfWord(ws[0]);
    } else if |ws| > 1 {
      FieldsSplit(ws[0], ' ', Join(ws[1..]));
      assert ws[0] + " " + Join(ws[1..]) == ws[0] + [' '] + Join(ws[1..]);
      FieldsOfWord(ws[0]);
      FieldsJoin(ws[1..]);
    }
  }

  lemma {:induction false} NonSpaceAppend(a: string, b: string)
    ensures NonSpace(a + b) == NonSpace(a) + NonSpace(b)
    decreases |a|
  {
    if a == [] {
      assert a + b == b;
    } else {
      assert (a + b)[1..] == a[1..] + b;
      NonSpaceAppend(a[1..], b);
    }
  }

  lemma {:induction false} NonSpaceOfWord(w: string)
    requires NoSpace(w)
    ensures NonSpace(w) == w
    decreases |w|
  {
    if w != [] {
      NonSpaceOfWord(w[1..]);
    }
  }

  /**
   * The fields keep every non-space character of the text, in the order of
   * the text: run together, they are the text with its white space removed.
   */
  lemma {:induction false} FieldsConcat(s: string)
    ensures Concat(Fields(s)) == NonSpace(s)
    decreases |s|
  {
    if s != [] {
      if IsSpace(s[0]) {
        FieldsConcat(s[1..]);
      } else {
        var n := WordLen(s);
        var ws := [s[..n]] + Fields(s[n..]);
        assert ws[0] == s[..n] && ws[1..] == Fields(s[n..]);
        FieldsConcat(s[n..]);
        assert s == s[..n] + s[n..];
        NonSpaceAppend(s[..n], s[n..]);
        NonSpaceOfWord(s[..n]);
      }
    }
  }

  // ---------------------------------------------------------------------------
  // Properties of cleanInput

  /** White space around a text does not change the fields of the lower-cased text. */
  lemma FieldsLowerPadded(pre: string, x: string, suf: string)
    requires AllSpace(pre) && AllSpace(suf)
    ensures Fields(Lower(pre + x + suf)) == Fields(Lower(x))
  {
    assert pre + x + suf == pre + (x + suf);
    LowerAppend(pre, x + suf);
    LowerAppend(x, suf);
    FieldsLeadingSpace(Lower(pre), Lower(x) + Lower(suf));
    FieldsTrailingSpace(Lower(x), Lower(suf));
  }

  /** Trimming is redundant: `cleanInput` gives the fields of the lower-cased line. */
  lemma CleanInputUntrimmed(text: string)
    ensures CleanInput(text) == Fields(Lower(text))
  {
    var r := TrimSpace(text);
    var i := LeadingSpace(text);
    TrimSpaceSplit(text);
    FieldsLowerPadded(text[..i], r, text[i + |r|..]);
  }

  /** A line with nothing but white space has no words, and only such a line. */
  lemma WhitespaceOnly(text: string)
    ensures CleanInput(text) == [] <==> AllSpace(text)
  {
    CleanInputUntrimmed(text);
    FieldsEmpty(Lower(text));
  }

  /** Tabs and newlines separate words just as spaces do. */
  lemma CleanInputSeparator(a: string, c: char, b: string)
    requires IsSpace(c)
    ensures CleanInput(a + [c] + b) == CleanInput(a) + CleanInput(b)
  {
    CleanInputUntrimmed(a + [c] + b);
    CleanInputUntrimmed(a);
    CleanInputUntrimmed(b);
    LowerAppend(a + [c], b);
    LowerAppend(a, [c]);
    assert Lower([c]) == [LowerChar(c)];
    FieldsSplit(Lower(a), LowerChar(c), Lower(b));
  }

  /**
   * The words keep the order of the line: run together they are the
   * lower-cased line with its white space removed.
   */
  lemma CleanInputOrder(text: string)
    ensures Concat(CleanInput(text)) == NonSpace(Lower(text))
  {
    CleanInputUntrimmed(text);
    FieldsConcat(Lower(text));
  }

  lemma NoUpperAppend(a: string, b: string)
    requires NoUpper(a) && NoUpper(b)
    ensures NoUpper(a + b)
  {
  }

  lemma {:induction false} JoinNoUpper(ws: seq<string>)
    requires forall w :: w in ws ==> NoUpper(w)
    ensures NoUpper(Join(ws))
    decreases |ws|
  {
    if |ws| > 1 {
      JoinNoUpper(ws[1..]);
      NoUpperAppend(ws[0], " ");
      NoUpperAppend(ws[0] + " ", Join(ws[1..]));
    }
  }

  /** `cleanInput` is idempotent: cleaning its words joined by single spaces gives the same words. */
  lemma CleanInputIdempotent(text: string)
    ensures CleanInput(Join(CleanInput(text))) == CleanInput(text)
  {
    var ws := CleanInput(text);
    CleanInputUntrimmed(Join(ws));
    JoinNoUpper(ws);
    LowerKeepsLowerCase(Join(ws));
    FieldsJoin(ws);
  }

  lemma CleanInputOfWord(w: string)
    requires IsWord(w)
    ensures CleanInput(w) == [Lower(w)]
  {
    CleanInputUntrimmed(w);
    FieldsOfWord(Lower(w));
  }

  lemma CleanInputPadded(pre: string, x: string, suf: string)
    requires AllSpace(pre) && AllSpace(suf)
    ensures CleanInput(pre + x + suf) == CleanInput(x)
  {
    CleanInputUntrimmed(pre + x + suf);
    CleanInputUntrimmed(x);
    FieldsLowerPadded(pre, x, suf);
  }

  /** White space before a line does not change its words. */
  lemma CleanInputLeadingSpace(sp: string, x: string)
    requires AllSpace(sp)
    ensures CleanInput(sp + x) == CleanInput(x)
  {
    assert sp + x + [] == sp + x;
    CleanInputPadded(sp, x, []);
  }

  /** A run of white space separates words just as one white-space character does. */
  lemma CleanInputSeparatorRun(a: string, sep: string, b: string)
    requires sep != [] && AllSpace(sep)
    ensures CleanInput(a + sep + b) == CleanInput(a) + CleanInput(b)
  {
    SplitFirst(a, sep, b);
    CleanInputSeparator(a, sep[0], sep[1..] + b);
    CleanInputLeadingSpace(sep[1..], b);
  }

  /** Two words with white space between them clean to the two words, lower-cased. */
  lemma CleanInputTwoWords(a: string, sep: string, b: string)
    requires IsWord(a) && IsWord(b) && sep != [] && AllSpace(sep)
    ensures CleanInput(a + sep + b) == [Lower(a), Lower(b)]
  {
    CleanInputSeparatorRun(a, sep, b);
    CleanInputOfWord(a);
    CleanInputOfWord(b);
  }

  /** The same, with white space before and after. */
  lemma CleanInputTwoWordsPadded(pre: string, a: string, sep: string, b: string, suf: string)
    requires AllSpace(pre) && AllSpace(suf)
    requires IsWord(a) && IsWord(b) && sep != [] && AllSpace(sep)
    ensures CleanInput(pre + (a + sep + b) + suf) == [Lower(a), Lower(b)]
  {
    CleanInputPadded(pre, a + sep + b, suf);
    CleanInputTwoWords(a, sep, b);
  }

  /** Three words, each pair separated by one white-space character, clean to the three words, lower-cased. */
  lemma CleanInputThreeWords(a: string, c1: char, b: string, c2: char, d: string)
    requires IsWord(a) && IsWord(b) && IsWord(d) && IsSpace(c1) && IsSpace(c2)
    ensures CleanInput(a + [c1] + (b + [c2] + d)) == [Lower(a), Lower(b), Lower(d)]
  {
    var la, rest := Lower(a), [Lower(b), Lower(d)];
    CleanInputOfWord(a);
    CleanInputTwoWords(b, [c2], d);
    CleanInputSeparator(a, c1, b + [c2] + d);
    assert [la] + rest == [la, Lower(b), Lower(d)];
  }

  // ---------------------------------------------------------------------------
  // The cases of TestCleanInput

  /** Surrounding and repeated spaces are dropped. */
  lemma CaseSpaces()
    ensures CleanInput("  hello  world  ") == ["hello", "world"]
  {
    var a, b, sp := "hello", "world", "  ";
    assert "  hello  world  " == sp + (a + sp + b) + sp;
    CleanInputTwoWordsPadded(sp, a, sp, b, sp);
    LowerHelloWorld();
  }

  lemma LowerHelloWorld()
    ensures Lower("hello") == "hello" && Lower("world") == "world"
  {
    LowerKeepsLowerCase("hello");
    LowerKeepsLowerCase("world");
  }

  lemma LowerCharmander()
    ensures Lower("Charmander") == "charmander"
  {
    var s := "Charmander";
    forall i | 0 <= i < |s| ensures Lower(s)[i] == "charmander"[i] {
      if i == 0 {}
    }
  }

  lemma LowerBulbasaur()
    ensures Lower("Bulbasaur") == "bulbasaur"
  {
    var s := "Bulbasaur";
    forall i | 0 <= i < |s| ensures Lower(s)[i] == "bulbasaur"[i] {
      if i == 0 {}
    }
  }

  lemma LowerPikachu()
    ensures Lower("PIKACHU") == "pikachu"
  {
    var s := "PIKACHU";
    forall i | 0 <= i < |s| ensures Lower(s)[i] == "pikachu"[i] {
      if i == 0 {} else if i == 1 {} else if i == 2 {} else if i == 3 {} else if i == 4 {} else if i == 5 {} else {}
    }
  }

  lemma LowerGolangIsGreat()
    ensures Lower("Golang") == "golang" && Lower("Is") == "is" && Lower("Great") == "great"
  {
    var a, b, d := "Golang", "Is", "Great";
    forall i | 0 <= i < |a| ensures Lower(a)[i] == "golang"[i] {
      if i == 0 {}
    }
    forall i | 0 <= i < |b| ensures Lower(b)[i] == "is"[i] {
      if i == 0 {}
    }
    forall i | 0 <= i < |d| ensures Lower(d)[i] == "great"[i] {
      if i == 0 {}
    }
  }

  /** Letters are lower-cased. */
  lemma CaseUpper()
    ensures CleanInput("Charmander Bulbasaur PIKACHU") == ["charmander", "bulbasaur", "pikachu"]
  {
    var a, b, d := "Charmander", "Bulbasaur", "PIKACHU";
    assert "Charmander Bulbasaur PIKACHU" == a + [' '] + (b + [' '] + d);
    CleanInputThreeWords(a, ' ', b, ' ', d);
    LowerCharmander();
    LowerBulbasaur();
    LowerPikachu();
  }

  /** A line of spaces has no words. */
  lemma CaseBlank()
    ensures CleanInput("   ") == []
  {
    WhitespaceOnly("   ");
  }

  /** A tab and a newline separate words. */
  lemma CaseTabNewline()
    ensures CleanInput("Golang\tIs\nGreat") == ["golang", "is", "great"]
  {
    var a, b, d := "Golang", "Is", "Great";
    assert "Golang\tIs\nGreat" == a + ['\t'] + (b + ['\n'] + d);
    CleanInputThreeWords(a, '\t', b, '\n', d);
    LowerGolangIsGreat();
  }
}
