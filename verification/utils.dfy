// Small text and date helpers shared by the services.

module Utils {
  import opened Base
  import opened Calendar

  // ---------------------------------------------------------------------
  // clean_string

  /** Every whitespace character of `r` is a single space standing between
      two non-space characters: no leading, trailing or doubled whitespace. */
  predicate SingleSpaced(r: string) {
    forall i :: 0 <= i < |r| && IsSpace(r[i]) ==>
      r[i] == ' ' && 0 < i < |r| - 1 && !IsSpace(r[i - 1]) && !IsSpace(r[i + 1])
  }

  predicate AllWords(ws: seq<string>) {
    forall k :: 0 <= k < |ws| ==> IsWord(ws[k])
  }

  /** `clean_string(text)`: "" for an empty text, otherwise the words of
      `text.split()` joined by single spaces. */
  function CleanString(text: string): (r: string)
    ensures SingleSpaced(r)
    ensures Split(r) == Split(text)
  {
    if text == "" then ""
    else
      var ws := Split(text);
      JoinedSingleSpaced(ws);
      SplitJoin(ws);
      Join(" ", ws)
  }

  /** Cleaning a cleaned text changes nothing. */
  lemma CleanStringIdempotent(text: string)
    ensures CleanString(CleanString(text)) == CleanString(text)
  {
    var c := CleanString(text);
    if c != "" {
      assert text != "";
      assert Split(c) == Split(text);
    }
  }

  /** A text with no words cleans to the empty text; otherwise the result
      is non-empty and starts and ends with a word character. */
  lemma CleanStringBlank(text: string)
    ensures CleanString(text) == "" <==> Blank(text)
  {
    var ws := Split(text);
    LStripIsSuffix(text);
    if !Blank(text) {
      assert LStrip(text) != [];
      JoinNonEmpty(ws);
    }
  }

  lemma CleanStringExample()
    ensures CleanString(" a  b\t") == "a b"
  {
    SplitExample();
    var ws := ["a", "b"];
    assert Join(" ", ws) == "a b" by {
      assert Join(" ", ws[1..]) == "b";
    }
  }

  lemma SplitExample()
    ensures Split(" a  b\t") == ["a", "b"]
  {
    SplitTail();
    SplitCons(" ", "a", "  b\t");
    assert " " + "a" + "  b\t" == " a  b\t";
  }

  lemma SplitTail()
    ensures Split("  b\t") == ["b"]
  {
    SplitTab();
    SplitCons("  ", "b", "\t");
    assert "  " + "b" + "\t" == "  b\t";
  }

  lemma SplitTab()
    ensures Split("\t") == []
  {
    assert LStrip("\t") == LStrip("") == "";
  }

  /** `split()` of blanks, a word and a remainder that starts with
      whitespace (or is empty) is the word followed by the remainder's
      words. */
  lemma {:induction false} SplitCons(sp: string, w: string, rest: string)
    requires Blank(sp) && IsWord(w)
    requires rest == [] || IsSpace(rest[0])
    ensures Split(sp + w + rest) == [w] + Split(rest)
  {
    var t := sp + w + rest;
    LStripBlanks(sp, w + rest);
    assert t == sp + (w + rest);
    WordOfWordThen(w, rest);
    assert (w + rest)[|w|..] == rest;
  }

  lemma {:induction false} LStripBlanks(sp: string, x: string)
    requires Blank(sp)
    requires x != [] && !IsSpace(x[0])
    ensures LStrip(sp + x) == x
  {
    if sp != [] {
      assert (sp + x)[1..] == sp[1..] + x;
      LStripBlanks(sp[1..], x);
    }
  }

  /** The leading word of a word followed by a space, or by nothing, is
      that word. */
  lemma {:induction false} WordOfWordThen(w: string, x: string)
    requires forall i :: 0 <= i < |w| ==> !IsSpace(w[i])
    requires x == [] || IsSpace(x[0])
    ensures Word(w + x) == w
  {
    if w != [] {
      assert (w + x)[1..] == w[1..] + x;
      WordOfWordThen(w[1..], x);
    }
  }

  lemma JoinNonEmpty(ws: seq<string>)
    requires AllWords(ws) && ws != []
    ensures Join(" ", ws) != [] && Join(" ", ws)[0] == ws[0][0]
    ensures !IsSpace(Join(" ", ws)[|Join(" ", ws)| - 1])
  {
    if |ws| > 1 {
      JoinNonEmpty(ws[1..]);
    }
  }

  /** `" ".join(words).split()` gives the words back. */
  lemma {:induction false} SplitJoin(ws: seq<string>)
    requires AllWords(ws)
    ensures Split(Join(" ", ws)) == ws
  {
    if ws == [] {
    } else if |ws| == 1 {
      var w := ws[0];
      assert LStrip(w) == w;
      WordOfWordThen(w, []);
      assert w + [] == w;
      assert w[|w|..] == [];
    } else {
      var w := ws[0];
      var rest := Join(" ", ws[1..]);
      var s := w + " " + rest;
      assert Join(" ", ws) == s;
      assert LStrip(s) == s;
      WordOfWordThen(w, " " + rest);
      assert s == w + (" " + rest);
      assert s[|w|..] == " " + rest;
      JoinNonEmpty(ws[1..]);
      assert LStrip(" " + rest) == LStrip(rest) == rest;
      assert Split(" " + rest) == Split(rest) by {
        assert (" " + rest)[1..] == rest;
      }
      SplitJoin(ws[1..]);
      assert Split(s) == [w] + Split(s[|w|..]);
    }
  }

  lemma {:induction false} JoinedSingleSpaced(ws: seq<string>)
    requires AllWords(ws)
    ensures SingleSpaced(Join(" ", ws))
  {
    if |ws| > 1 {
      var w := ws[0];
      var rest := Join(" ", ws[1..]);
      JoinedSingleSpaced(ws[1..]);
      JoinNonEmpty(ws[1..]);
      var s := w + " " + rest;
      assert Join(" ", ws) == s;
      forall i | 0 <= i < |s| && IsSpace(s[i])
        ensures s[i] == ' ' && 0 < i < |s| - 1 && !IsSpace(s[i - 1]) && !IsSpace(s[i + 1])
      {
        if i < |w| {
          assert false;
        } else if i == |w| {
          assert s[i + 1] == rest[0];
          assert s[i - 1] == w[|w| - 1];
        } else {
          var j := i - |w| - 1;
          assert s[i] == rest[j];
          if j > 0 {
            assert s[i - 1] == rest[j - 1];
          }
          assert s[i + 1] == rest[j + 1];
        }
      }
    }
  }

  // ---------------------------------------------------------------------
  // calculate_date_range

  /** `(end_date - start_date).days`: the number of nights from `start`
      to `end`, zero or negative when `end` is not after `start`. */
  function CalculateDateRange(start: Date, end: Date): (r: int)
    requires Valid(start) && Valid(end)
    ensures AddDays(start, r) == Some(end)
    ensures r > 0 <==> Before(start, end)
    ensures r == 0 <==> start == end
    ensures r < 0 <==> Before(end, start)
  {
    DateRangeFacts(start, end);
    Ordinal(end) - Ordinal(start)
  }

  lemma DateRangeFacts(start: Date, end: Date)
    requires Valid(start) && Valid(end)
    ensures var r := Ordinal(end) - Ordinal(start);
      && AddDays(start, r) == Some(end)
      && (r > 0 <==> Before(start, end))
      && (r == 0 <==> start == end)
      && (r < 0 <==> Before(end, start))
  {
    OrdinalOrder(start, end);
    OrdinalOrder(end, start);
    if Ordinal(start) == Ordinal(end) {
      OrdinalInjective(start, end);
    }
    var a := AddDays(start, Ordinal(end) - Ordinal(start));
    OrdinalInjective(a.value, end);
  }

  /** Shifting a date by the range to another lands there, and nights
      add up across an intermediate date. */
  lemma DateRangeAdds(a: Date, b: Date, c: Date)
    requires Valid(a) && Valid(b) && Valid(c)
    ensures CalculateDateRange(a, b) + CalculateDateRange(b, c) == CalculateDateRange(a, c)
  {
    var ab := CalculateDateRange(a, b);
    var bc := CalculateDateRange(b, c);
    var ac := CalculateDateRange(a, c);
    assert Ordinal(b) == Ordinal(a) + ab;
    assert Ordinal(c) == Ordinal(b) + bc;
    assert Ordinal(c) == Ordinal(a) + ac;
  }
}
