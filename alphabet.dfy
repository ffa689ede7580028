/** The fixed Morse alphabet of the application and the character
    normalisation applied to the text before it is looked up. */
module Alphabet {

  datatype Option<T> = None | Some(value: T)

  /** The codes of the letters 'A' to 'Z', in alphabetical order. */
  const Letters: seq<string> := [
    ".-", "-...", "-.-.", "-..", ".", "..-.", "--.", "....", "..", ".---",
    "-.-", ".-..", "--", "-.", "---", ".--.", "--.-", ".-.", "...", "-",
    "..-", "...-", ".--", "-..-", "-.--", "--.."]

  /** The codes of the digits, indexed by the digit's value ('0' first). */
  const Digits: seq<string> := [
    "-----", ".----", "..---", "...--", "....-", ".....", "-....", "--...", "---..", "----."]

  /** The Morse table, read as a dictionary lookup: an upper-case character
      to its string of dots and dashes, or None for a character that is not
      a key. The space is a key of its own and maps to a single space. No
      key maps to the empty string. */
  function Lookup(c: char): (r: Option<string>)
    ensures r.Some? ==> r.value != []
  {
    if 'A' <= c <= 'Z' then Some(Letters[c as int - 'A' as int])
    else if '0' <= c <= '9' then Some(Digits[c as int - '0' as int])
    else
      match c
      case ' ' => Some(" ")
      case '.' => Some(".-.-.-")
      case ',' => Some("--..--")
      case ':' => Some("---...")
      case ';' => Some("-.-.-.")
      case '-' => Some("-....-")
      case '_' => Some("..--.-")
      case '?' => Some("..--..")
      case '!' => Some("-.-.--")
      case _ => None
  }

  /** The dictionary membership test `c in morse_code`. */
  predicate Known(c: char) {
    Lookup(c).Some?
  }

  /** A signal of a Morse code string. */
  predicate IsSignal(s: char) {
    s == '.' || s == '-'
  }

  /** A string made only of dots and dashes. */
  predicate AllSignals(code: string) {
    forall i :: 0 <= i < |code| ==> IsSignal(code[i])
  }

  /** A non-empty string made only of dots and dashes. */
  predicate IsCode(code: string) {
    |code| > 0 && AllSignals(code)
  }

  /** A character the encoder turns into tones: a key of the table other
      than the space, which the encoder treats as a word gap. */
  predicate IsLetter(c: char) {
    c != ' ' && Known(c)
  }

  /** Every entry except the space's is a non-empty string over '.' and '-';
      so a missing key is the only way the encoder's lookup comes back empty. */
  lemma TableWellFormed(c: char)
    requires Known(c)
    ensures c == ' ' ==> Lookup(c).value == " "
    ensures c != ' ' ==> IsCode(Lookup(c).value)
  {
  }

  /** The keys of the table are exactly the capital letters, the digits, the
      space and the eight punctuation marks . , : ; - _ ? ! */
  lemma KnownCharacters(c: char)
    ensures Known(c) <==> ('A' <= c <= 'Z' || '0' <= c <= '9' || c in " .,:;-_?!")
  {
  }

  /** Upper-casing of one character, restricted to ASCII letters. The result
      is never a lower-case letter; it is a key exactly when the character
      was a key or a lower-case letter, and a key is left unchanged. */
  function UpperChar(c: char): (u: char)
    ensures 'a' <= c <= 'z' ==> 'A' <= u <= 'Z' && u as int == c as int - 32
    ensures !('a' <= c <= 'z') ==> u == c
    ensures !('a' <= u <= 'z')
    ensures Known(u) <==> (Known(c) || 'a' <= c <= 'z')
    ensures Known(c) ==> u == c
  {
    if 'a' <= c <= 'z' then (c as int - 32) as char else c
  }

  /** Upper-casing of a text, character by character: the same length, and
      a key at every position that held a key or a lower-case letter. */
  function Upper(s: string): (u: string)
    ensures |u| == |s|
    ensures forall i :: 0 <= i < |s| ==> u[i] == UpperChar(s[i])
    ensures forall i :: 0 <= i < |s| ==> (Known(u[i]) <==> (Known(s[i]) || 'a' <= s[i] <= 'z'))
  {
    seq(|s|, i requires 0 <= i < |s| => UpperChar(s[i]))
  }

  /** A lower-case letter is not a key itself, but its upper-case form is:
      the table is case-insensitive only through the normalisation. */
  lemma UpperKnown(c: char)
    requires 'a' <= c <= 'z'
    ensures IsLetter(UpperChar(c))
    ensures !Known(c)
  {
  }

  /** The dots and dashes of a normalised text, letter after letter: the
      codes of its table characters other than the space, concatenated. */
  function Signals(s: string): (r: string)
    ensures AllSignals(r)
  {
    if s == [] then []
    else
      var c := s[|s| - 1];
      Signals(s[..|s| - 1]) + (if IsLetter(c) then TableWellFormed(c); Lookup(c).value else [])
  }
}
