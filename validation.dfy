/**
 * Input validation of an inbound chat message (`validate_message` in main.py).
 *
 * The message is rejected when it is not a non-empty string, when it is longer
 * than 2000 characters before stripping, when it holds only whitespace, or when
 * its lower-cased form contains a script element or one of three URI schemes
 * used for injection. Otherwise it is accepted and the stripped text is returned.
 */
module Validation {
  import opened Wrappers

  /** Longest accepted message, counted before whitespace is stripped. */
  const MaxLength: nat := 2000

  datatype ValidationError =
    | InvalidFormat   // not a string, or the empty string
    | TooLong         // more than MaxLength characters
    | EmptyMessage    // nothing but whitespace
    | Dangerous       // an injection pattern occurs in the lower-cased text

  datatype ValidationResult = Accepted(text: string) | Rejected(error: ValidationError)

  /** The characters that Python's `str.isspace` (and so `str.strip`) treats as whitespace. */
  predicate IsSpace(c: char) {
    var n := c as int;
    || 9 <= n <= 13
    || 28 <= n <= 32
    || n == 0x85
    || n == 0xA0
    || n == 0x1680
    || 0x2000 <= n <= 0x200A
    || n == 0x2028
    || n == 0x2029
    || n == 0x202F
    || n == 0x205F
    || n == 0x3000
  }

  predicate AllSpace(s: string) {
    forall i :: 0 <= i < |s| ==> IsSpace(s[i])
  }

  /** `pat` occurs in `s` starting at position `i`. */
  predicate OccursAt(pat: string, s: string, i: nat) {
    i + |pat| <= |s| && s[i..i + |pat|] == pat
  }

  /** Every character of s before position a or from position b on is whitespace. */
  predicate SpaceOutside(s: string, a: nat, b: nat) {
    forall i :: 0 <= i < |s| && (i < a || b <= i) ==> IsSpace(s[i])
  }

  /** Leading whitespace removed. */
  function TrimStart(s: string): (r: string)
    ensures |r| <= |s| && r == s[|s| - |r|..]
    ensures r == [] || !IsSpace(r[0])
    ensures forall i :: 0 <= i < |s| - |r| ==> IsSpace(s[i])
  {
    if s != [] && IsSpace(s[0]) then TrimStart(s[1..]) else s
  }

  /** Trailing whitespace removed. */
  function TrimEnd(s: string): (r: string)
    ensures |r| <= |s| && r == s[..|r|]
    ensures r == [] || !IsSpace(r[|r| - 1])
    ensures forall i :: |r| <= i < |s| ==> IsSpace(s[i])
  {
    if s != [] && IsSpace(s[|s| - 1]) then TrimEnd(s[..|s| - 1]) else s
  }

  /** Python's `str.strip()` with no argument. */
  function Strip(s: string): (r: string)
    ensures exists a: nat :: OccursAt(r, s, a) && SpaceOutside(s, a, a + |r|)
    ensures |r| <= |s|
    ensures r == [] || (!IsSpace(r[0]) && !IsSpace(r[|r| - 1]))
    ensures r == [] <==> AllSpace(s)
  {
    var t := TrimStart(s);
    var r := TrimEnd(t);
    StripPieces(s, t, r);
    r
  }

  /**
   * Whitespace in front of t, and whitespace after r where r begins t: then r
   * sits in s with only whitespace around it, and is empty exactly when s is
   * all whitespace.
   */
  lemma StripPieces(s: string, t: string, r: string)
    requires |t| <= |s| && t == s[|s| - |t|..]
    requires forall i :: 0 <= i < |s| - |t| ==> IsSpace(s[i])
    requires t == [] || !IsSpace(t[0])
    requires |r| <= |t| && r == t[..|r|]
    requires forall i :: |r| <= i < |t| ==> IsSpace(t[i])
    requires r == [] || !IsSpace(r[|r| - 1])
    ensures exists a: nat :: OccursAt(r, s, a) && SpaceOutside(s, a, a + |r|)
    ensures |r| <= |s|
    ensures r == [] || (!IsSpace(r[0]) && !IsSpace(r[|r| - 1]))
    ensures r == [] <==> AllSpace(s)
  {
    var a := |s| - |t|;
    assert s[a..][..|r|] == s[a..a + |r|];
    forall i | a + |r| <= i < |s| ensures IsSpace(s[i]) {
      assert s[i] == t[i - a];
    }
    assert OccursAt(r, s, a) && SpaceOutside(s, a, a + |r|);
    if r != [] {
      assert r[0] == t[0];
      assert !AllSpace(s) by { assert !IsSpace(s[a]); }
    } else if t != [] {
      assert false;
    } else {
      assert AllSpace(s);
    }
  }

  /** ASCII lower-casing of one character (an abstraction of Python's Unicode `str.lower`). */
  function LowerChar(c: char): char {
    if 'A' <= c <= 'Z' then (c as int + 32) as char else c
  }

  function Lower(s: string): (r: string)
    ensures |r| == |s|
  {
    seq(|s|, i requires 0 <= i < |s| => LowerChar(s[i]))
  }

  /**
   * Lower-casing leaves no ASCII upper-case letter and changes no character
   * that is not one.
   */
  lemma LowerCharwise(s: string)
    ensures forall i :: 0 <= i < |s| ==> !('A' <= Lower(s)[i] <= 'Z')
    ensures forall i :: 0 <= i < |s| && !('A' <= s[i] <= 'Z') ==> Lower(s)[i] == s[i]
  {
  }

  predicate Contains(s: string, pat: string) {
    exists i: nat | i <= |s| :: OccursAt(pat, s, i)
  }

  /**
   * The positions of a match of the regular expression `<script.*?>.*?</script>`
   * under DOTALL: `<script` at i, a `>` at j after it, `</script>` at k after that.
   */
  predicate ScriptAt(s: string, i: nat, j: nat, k: nat) {
    && OccursAt("<script", s, i)
    && i + 7 <= j < k
    && OccursAt("</script>", s, k)
    && s[j] == '>'
  }

  predicate HasScriptElement(s: string) {
    exists i: nat, j: nat, k: nat | i < j < k < |s| :: ScriptAt(s, i, j, k)
  }

  /** The four dangerous patterns, checked against the lower-cased message. */
  predicate IsDangerous(s: string) {
    || HasScriptElement(s)
    || Contains(s, "javascript:")
    || Contains(s, "vbscript:")
    || Contains(s, "data:text/html")
  }

  /**
   * `validate_message`: the four rejections in the order the source checks them,
   * and acceptance with the stripped text.
   */
  function ValidateMessage(message: Option<string>): (r: ValidationResult)
    ensures r == Rejected(InvalidFormat) <==> message == None || message == Some("")
    ensures r == Rejected(TooLong) <==>
      message.Some? && message.value != "" && |message.value| > MaxLength
    ensures r == Rejected(EmptyMessage) <==>
      message.Some? && 0 < |message.value| <= MaxLength && AllSpace(message.value)
    ensures r == Rejected(Dangerous) <==>
      && message.Some? && 0 < |message.value| <= MaxLength && !AllSpace(message.value)
      && IsDangerous(Lower(message.value))
    ensures r.Accepted? ==>
      && message.Some?
      && r.text == Strip(message.value)
      && 0 < |r.text| <= MaxLength
      && !IsSpace(r.text[0]) && !IsSpace(r.text[|r.text| - 1])
  {
    if message == None || message == Some("") then Rejected(InvalidFormat)
    else
      var s := message.value;
      if |s| > MaxLength then Rejected(TooLong)
      else
        var t := Strip(s);
        assert t == [] <==> AllSpace(s);
        if t == [] then Rejected(EmptyMessage)
        else if IsDangerous(Lower(s)) then Rejected(Dangerous)
        else Accepted(t)
  }

  /** Stripping text that has no whitespace at either end leaves it unchanged. */
  lemma StripTrimmed(t: string)
    requires t == [] || (!IsSpace(t[0]) && !IsSpace(t[|t| - 1]))
    ensures Strip(t) == t
  {
  }

  /** A pattern occurring in a slice of `y` occurs in `y`, shifted by the slice's start. */
  lemma OccursShift(pat: string, x: string, y: string, a: nat, i: nat)
    requires OccursAt(x, y, a)
    requires OccursAt(pat, x, i)
    ensures OccursAt(pat, y, a + i)
  {
    forall m | 0 <= m < |pat| ensures y[a + i + m] == pat[m] {
      assert pat[m] == x[i + m];
      assert x[i + m] == y[a + i + m];
    }
    assert y[a + i..a + i + |pat|] == pat;
  }

  /** Lower-casing commutes with taking a slice. */
  lemma LowerSlice(x: string, y: string, a: nat)
    requires OccursAt(x, y, a)
    ensures OccursAt(Lower(x), Lower(y), a)
  {
    assert Lower(y)[a..a + |x|] == Lower(x);
  }

  /** A dangerous pattern in a piece of a text is a dangerous pattern in the text. */
  lemma {:induction false} DangerousInfix(x: string, y: string, a: nat)
    requires OccursAt(x, y, a)
    requires IsDangerous(x)
    ensures IsDangerous(y)
  {
    if HasScriptElement(x) {
      var i: nat, j: nat, k: nat :| i < j < k < |x| && ScriptAt(x, i, j, k);
      OccursShift("<script", x, y, a, i);
      OccursShift("</script>", x, y, a, k);
      assert y[a + j] == x[j];
      assert ScriptAt(y, a + i, a + j, a + k);
    } else {
      var pat := if Contains(x, "javascript:") then "javascript:"
                 else if Contains(x, "vbscript:") then "vbscript:"
                 else "data:text/html";
      var i: nat :| i <= |x| && OccursAt(pat, x, i);
      OccursShift(pat, x, y, a, i);
      assert a + i <= |y|;
      assert Contains(y, pat);
    }
  }

  /**
   * Validating an accepted message's text again accepts it and returns it
   * unchanged: validation is idempotent on its own output.
   */
  lemma {:induction false} ValidateIdempotent(message: Option<string>)
    requires ValidateMessage(message).Accepted?
    ensures ValidateMessage(Some(ValidateMessage(message).text)) == ValidateMessage(message)
  {
    AcceptedTextPasses(message.value);
  }

  /** The stripped text of an accepted message passes every check of validation again. */
  lemma AcceptedTextPasses(s: string)
    requires ValidateMessage(Some(s)).Accepted?
    ensures var t := Strip(s);
      && 0 < |t| <= MaxLength && Strip(t) == t && !AllSpace(t) && !IsDangerous(Lower(t))
  {
    var t := Strip(s);
    var a: nat :| OccursAt(t, s, a);
    StripTrimmed(t);
    assert !AllSpace(t) by { assert !IsSpace(t[0]); }
    LowerSlice(t, s, a);
    if IsDangerous(Lower(t)) {
      DangerousInfix(Lower(t), Lower(s), a);
      assert false;
    }
  }

  /** The character at offset `c` of an occurrence is the pattern's `c`-th character. */
  lemma OccurrenceChar(pat: string, s: string, i: nat, c: nat)
    requires OccursAt(pat, s, i) && c < |pat|
    ensures s[i + c] == pat[c]
  {
    assert s[i..i + |pat|][c] == s[i + c];
  }

  /** Text with neither `<` nor `:` contains no dangerous pattern. */
  lemma WithoutMarkupSafe(s: string)
    requires forall i :: 0 <= i < |s| ==> s[i] != '<' && s[i] != ':'
    ensures !IsDangerous(s)
  {
    if HasScriptElement(s) {
      var i: nat, j: nat, k: nat :| i < j < k < |s| && ScriptAt(s, i, j, k);
      OccurrenceChar("<script", s, i, 0);
      assert false;
    }
    if Contains(s, "javascript:") {
      var i: nat :| i <= |s| && OccursAt("javascript:", s, i);
      OccurrenceChar("javascript:", s, i, 10);
      assert false;
    }
    if Contains(s, "vbscript:") {
      var i: nat :| i <= |s| && OccursAt("vbscript:", s, i);
      OccurrenceChar("vbscript:", s, i, 8);
      assert false;
    }
    if Contains(s, "data:text/html") {
      var i: nat :| i <= |s| && OccursAt("data:text/html", s, i);
      OccurrenceChar("data:text/html", s, i, 4);
      assert false;
    }
  }

  /** A script element is rejected whatever its case and its content. */
  lemma ScriptElementRejected(x: string)
    requires |x| + 17 <= MaxLength
    ensures ValidateMessage(Some("<SCRIPT>" + x + "</SCRIPT>")) == Rejected(Dangerous)
  {
    var w := "<SCRIPT>" + x + "</SCRIPT>";
    var k := 8 + |x|;
    assert Lower("<SCRIPT") == "<script";
    assert Lower("</SCRIPT>") == "</script>";
    assert OccursAt("<SCRIPT", w, 0);
    assert OccursAt("</SCRIPT>", w, k) by {
      assert w[k..k + 9] == "</SCRIPT>";
    }
    LowerSlice("<SCRIPT", w, 0);
    LowerSlice("</SCRIPT>", w, k);
    assert Lower(w)[7] == '>' by { assert w[7] == '>'; }
    assert ScriptAt(Lower(w), 0, 7, k);
    assert !AllSpace(w) by { assert !IsSpace(w[0]); }
  }

  /** A URI scheme anywhere in the text is rejected. */
  lemma SchemeExample()
    ensures ValidateMessage(Some("see javascript:void")) == Rejected(Dangerous)
  {
    var s := "see javascript:void";
    assert Lower(s) == s by {
      forall i | 0 <= i < |s| ensures Lower(s)[i] == s[i] {
        assert !('A' <= s[i] <= 'Z');
      }
    }
    assert s[4..15] == "javascript:";
    assert OccursAt("javascript:", Lower(s), 4);
    assert !AllSpace(s) by { assert !IsSpace(s[0]); }
  }

  /** The length cap applies to the text before stripping. */
  lemma LengthExamples()
    ensures ValidateMessage(Some(seq(MaxLength + 1, _ => 'a'))) == Rejected(TooLong)
    ensures ValidateMessage(Some("a" + seq(MaxLength, _ => ' '))) == Rejected(TooLong)
  {
  }

  /** Whitespace-only text is rejected. */
  lemma BlankExample()
    ensures ValidateMessage(Some("   ")) == Rejected(EmptyMessage)
  {
  }

  /** Text without upper-case letters, `<` or `:` passes the injection check. */
  lemma PlainTextSafe(w: string)
    requires forall i :: 0 <= i < |w| ==> !('A' <= w[i] <= 'Z') && w[i] != '<' && w[i] != ':'
    ensures !IsDangerous(Lower(w))
  {
    assert Lower(w) == w;
    WithoutMarkupSafe(w);
  }

  /** One whitespace character on each side of already-trimmed text is removed. */
  lemma StripOneEach(c: char, t: string, d: char)
    requires IsSpace(c) && IsSpace(d)
    requires t != [] && !IsSpace(t[0]) && !IsSpace(t[|t| - 1])
    ensures Strip([c] + t + [d]) == t
  {
    var w := [c] + t + [d];
    assert w[1..] == t + [d];
    assert TrimStart(w) == t + [d];
    assert (t + [d])[..|t|] == t;
    assert TrimEnd(t + [d]) == t;
  }

  /**
   * Plain text between two whitespace characters (an ideographic space, say) is
   * accepted, and the accepted text is the plain text alone.
   */
  lemma SurroundedTextAccepted(c: char, t: string, d: char)
    requires IsSpace(c) && IsSpace(d)
    requires 0 < |t| <= MaxLength - 2 && !IsSpace(t[0]) && !IsSpace(t[|t| - 1])
    requires forall i :: 0 <= i < |t| ==> !('A' <= t[i] <= 'Z') && t[i] != '<' && t[i] != ':'
    ensures ValidateMessage(Some([c] + t + [d])) == Accepted(t)
  {
    StripOneEach(c, t, d);
    SurroundedPlain(c, t, d);
    PlainTextSafe([c] + t + [d]);
  }

  lemma SurroundedPlain(c: char, t: string, d: char)
    requires IsSpace(c) && IsSpace(d)
    requires forall i :: 0 <= i < |t| ==> !('A' <= t[i] <= 'Z') && t[i] != '<' && t[i] != ':'
    ensures var w := [c] + t + [d];
      forall i :: 0 <= i < |w| ==> !('A' <= w[i] <= 'Z') && w[i] != '<' && w[i] != ':'
  {
    var w := [c] + t + [d];
    forall i | 0 <= i < |w| ensures !('A' <= w[i] <= 'Z') && w[i] != '<' && w[i] != ':' {
      if 0 < i < |w| - 1 {
        assert w[i] == t[i - 1];
      }
    }
  }
}
