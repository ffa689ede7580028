/** The on-screen rendering of a text as dots and dashes (the "Interpret"
    action, also run at the start of playback). */
module Render {
  import opened Alphabet

  /** The characters removed by Python's `str.strip()` that are ASCII. */
  predicate IsWhitespace(c: char) {
    c == ' ' || c == '\t' || c == '\n' || c == '\r' || c == 11 as char || c == 12 as char
    || (28 <= c as int <= 31)
  }

  /** The text built before stripping: for every character of the
      normalised text that is a key of the table, its code followed by one
      space; other characters contribute nothing. */
  function Rendering(s: string): string {
    if s == [] then []
    else
      var c := s[|s| - 1];
      Rendering(s[..|s| - 1]) + (if Known(c) then Lookup(c).value + " " else [])
  }

  /** A string of dots, dashes and spaces only. */
  predicate MorseChars(r: string) {
    forall i :: 0 <= i < |r| ==> r[i] == '.' || r[i] == '-' || r[i] == ' '
  }

  /** The rendering uses no character other than dot, dash and space. */
  lemma {:induction false} RenderingAlphabet(s: string)
    ensures MorseChars(Rendering(s))
  {
    if s != [] {
      var s', c := s[..|s| - 1], s[|s| - 1];
      RenderingAlphabet(s');
      var x, y := Rendering(s'), if Known(c) then Lookup(c).value + " " else [];
      assert MorseChars(y) by {
        if Known(c) {
          TableWellFormed(c);
          assert y == Lookup(c).value + " ";
        }
      }
      assert Rendering(s) == x + y;
      forall i | 0 <= i < |x + y| ensures (x + y)[i] == '.' || (x + y)[i] == '-' || (x + y)[i] == ' ' {
        if i < |x| {
          assert (x + y)[i] == x[i];
        } else {
          assert (x + y)[i] == y[i - |x|];
        }
      }
    }
  }

  /** The number of whitespace characters `s` starts with. */
  function LeadingSpace(s: string): (k: nat)
    ensures k <= |s|
    ensures forall i :: 0 <= i < k ==> IsWhitespace(s[i])
    ensures k < |s| ==> !IsWhitespace(s[k])
  {
    if s != [] && IsWhitespace(s[0]) then 1 + LeadingSpace(s[1..]) else 0
  }

  /** Removes the trailing whitespace. */
  function TrimEnd(s: string): (r: string)
    ensures |r| <= |s| && r == s[..|r|]
    ensures forall i :: |r| <= i < |s| ==> IsWhitespace(s[i])
    ensures r == [] || !IsWhitespace(r[|r| - 1])
  {
    if s != [] && IsWhitespace(s[|s| - 1]) then TrimEnd(s[..|s| - 1]) else s
  }

  /** `str.strip()`: removes the leading and then the trailing whitespace. */
  function Strip(s: string): string {
    TrimEnd(s[LeadingSpace(s)..])
  }

  /** The stripped string is the infix of `s` that starts after its leading
      whitespace and stops before its trailing whitespace, and it neither
      starts nor ends with whitespace. */
  lemma StripInfix(s: string)
    ensures LeadingSpace(s) + |Strip(s)| <= |s|
    ensures Strip(s) == s[LeadingSpace(s)..LeadingSpace(s) + |Strip(s)|]
    ensures forall i :: LeadingSpace(s) + |Strip(s)| <= i < |s| ==> IsWhitespace(s[i])
    ensures Strip(s) == [] || (!IsWhitespace(Strip(s)[0]) && !IsWhitespace(Strip(s)[|Strip(s)| - 1]))
  {
    var k := LeadingSpace(s);
    var t := s[k..];
    var r := TrimEnd(t);
    assert r == t[..|r|];
    assert t[..|r|] == s[k..k + |r|];
    forall i | k + |r| <= i < |s| ensures IsWhitespace(s[i]) {
      assert s[i] == t[i - k];
    }
    if r != [] {
      assert r[0] == s[k];
    }
  }

  /** The string the "Interpret" action shows for `text`. */
  function Displayed(text: string): string {
    Strip(Rendering(Upper(text)))
  }

  /** `translate_text`: upper-case the text, append `code + " "` for each
      character that is a key of the table, then strip the result. */
  method RenderText(text: string) returns (display: string)
    ensures display == Displayed(text)
  {
    var input := Upper(text);
    var translated := "";
    for n := 0 to |input|
      invariant translated == Rendering(input[..n])
    {
      var ch := input[n];
      assert input[..n + 1][..n] == input[..n];
      match Lookup(ch)
      case Some(code) =>
        translated := translated + code + " ";
      case None =>
    }
    assert input[..|input|] == input;
    display := Strip(translated);
  }

  /** The raw rendering is a homomorphism: rendering a concatenation renders
      each part in order. */
  lemma {:induction false} RenderingAppend(a: string, b: string)
    ensures Rendering(a + b) == Rendering(a) + Rendering(b)
  {
    if b == [] {
      assert a + b == a;
    } else {
      var b', c := b[..|b| - 1], b[|b| - 1];
      assert b == b' + [c];
      assert a + b == (a + b') + [c];
      RenderingSnoc(a + b', c);
      RenderingSnoc(b', c);
      RenderingAppend(a, b');
    }
  }

  /** Appending one character appends its piece. */
  lemma RenderingSnoc(s: string, c: char)
    ensures Rendering(s + [c]) == Rendering(s) + (if Known(c) then Lookup(c).value + " " else [])
  {
    assert (s + [c])[..|s|] == s;
  }

  /** One character renders as its code and a single space, or as nothing
      when it is not a key of the table. */
  lemma RenderingChar(c: char)
    ensures Known(c) ==> Rendering([c]) == Lookup(c).value + " "
    ensures !Known(c) ==> Rendering([c]) == []
  {
    assert [c][..0] == [];
  }

  /** A character that is not a key of the table changes nothing. */
  lemma RenderingSkipsUnknown(a: string, c: char, b: string)
    requires !Known(c)
    ensures Rendering(a + [c] + b) == Rendering(a + b)
  {
    RenderingAppend(a + [c], b);
    RenderingAppend(a, [c]);
    RenderingAppend(a, b);
    RenderingChar(c);
  }

  /** The string without its spaces. */
  function NoSpaces(s: string): (r: string)
    ensures |r| <= |s|
  {
    if s == [] then [] else NoSpaces(s[..|s| - 1]) + (if s[|s| - 1] == ' ' then [] else [s[|s| - 1]])
  }

  lemma {:induction false} NoSpacesAppend(a: string, b: string)
    ensures NoSpaces(a + b) == NoSpaces(a) + NoSpaces(b)
  {
    if b == [] {
      assert a + b == a;
    } else {
      var b' := b[..|b| - 1];
      assert (a + b)[..|a + b| - 1] == a + b';
      NoSpacesAppend(a, b');
    }
  }

  lemma {:induction false} NoSpacesOfSignals(code: string)
    requires AllSignals(code)
    ensures NoSpaces(code) == code
  {
    if code != [] {
      NoSpacesOfSignals(code[..|code| - 1]);
      assert code[..|code| - 1] + [code[|code| - 1]] == code;
    }
  }

  /** Apart from the spaces it puts between and after codes, the rendering
      is exactly the dots and dashes of the letters of the text, in order;
      the spaces of the text itself contribute only spaces. */
  lemma {:induction false} RenderingSignals(s: string)
    ensures NoSpaces(Rendering(s)) == Signals(s)
  {
    if s != [] {
      var s' := s[..|s| - 1];
      var c := s[|s| - 1];
      RenderingSignals(s');
      var tail := if Known(c) then Lookup(c).value + " " else [];
      assert Rendering(s) == Rendering(s') + tail;
      NoSpacesAppend(Rendering(s'), tail);
      if Known(c) {
        TableWellFormed(c);
        var code := Lookup(c).value;
        NoSpacesAppend(code, " ");
        assert NoSpaces(" ") == [] by { assert " "[..0] == []; }
        if c != ' ' {
          NoSpacesOfSignals(code);
        } else {
          NoSpacesAppend(" ", " ");
          assert NoSpaces(code + " ") == [];
        }
      }
    }
  }

  /** The display contains no leading or trailing space and only dots,
      dashes and spaces. */
  lemma DisplayShape(text: string)
    ensures var d := Displayed(text);
      (d == [] || (d[0] != ' ' && d[|d| - 1] != ' ')) &&
      forall i :: 0 <= i < |d| ==> d[i] == '.' || d[i] == '-' || d[i] == ' '
  {
    var r := Rendering(Upper(text));
    RenderingAlphabet(Upper(text));
    var k := LeadingSpace(r);
    var d := Strip(r);
    StripInfix(r);
    forall i | 0 <= i < |d| ensures d[i] == '.' || d[i] == '-' || d[i] == ' ' {
      assert d[i] == r[k + i];
    }
  }

  /** "SOS" renders as three codes, each followed by a space. */
  lemma SosRendering()
    ensures Rendering("SOS") == "... --- ... "
  {
    RenderingChar('S');
    RenderingChar('O');
    RenderingAppend("S", "O");
    assert "S" + "O" == "SO";
    RenderingAppend("SO", "S");
    assert "SO" + "S" == "SOS";
  }

  /** "SOS" is shown as its three codes separated by single spaces: the
      trailing space is stripped from the display. */
  lemma SosDisplay()
    ensures Displayed("sos") == "... --- ..."
  {
    var r := "... --- ... ";
    assert Upper("sos") == "SOS";
    SosRendering();
    assert LeadingSpace(r) == 0;
    assert r[..|r| - 1] == "... --- ...";
    assert TrimEnd(r) == TrimEnd("... --- ...");
  }
}
