/** The contact form of src/pages/ContactPage.tsx: three text fields, each
    replaced on input, checked for blankness on submit and cleared once sent. */
module ContactPage {

  /** The characters `String.prototype.trim` removes: the ECMAScript WhiteSpace
      and LineTerminator characters. */
  predicate IsJsWhitespace(c: char) {
    || c == '\t' || c == '\n' || c == '\U{0B}' || c == '\U{0C}' || c == '\r' || c == ' '
    || c == '\U{A0}' || c == '\U{1680}' || ('\U{2000}' <= c <= '\U{200A}')
    || c == '\U{2028}' || c == '\U{2029}' || c == '\U{202F}' || c == '\U{205F}'
    || c == '\U{3000}' || c == '\U{FEFF}'
  }

  predicate Blank(s: string) {
    forall i :: 0 <= i < |s| ==> IsJsWhitespace(s[i])
  }

  /** Every character of `s[lo..hi]` is whitespace. */
  predicate BlankBetween(s: string, lo: nat, hi: nat)
    requires lo <= hi <= |s|
  {
    forall k :: lo <= k < hi ==> IsJsWhitespace(s[k])
  }

  /** Where the text starts once the whitespace before it is skipped, scanning
      from `i` on. */
  function TrimStartIndex(s: string, i: nat): (lo: nat)
    requires i <= |s| && BlankBetween(s, 0, i)
    ensures i <= lo <= |s| && BlankBetween(s, 0, lo)
    ensures lo == |s| || !IsJsWhitespace(s[lo])
    decreases |s| - i
  {
    if i == |s| || !IsJsWhitespace(s[i]) then i else TrimStartIndex(s, i + 1)
  }

  /** Where the text ends once the whitespace after it is skipped, scanning
      back from `j` but not past `lo`. */
  function TrimEndIndex(s: string, lo: nat, j: nat): (hi: nat)
    requires lo <= j <= |s| && BlankBetween(s, j, |s|)
    ensures lo <= hi <= j && BlankBetween(s, hi, |s|)
    ensures hi == lo || !IsJsWhitespace(s[hi - 1])
  {
    if j == lo || !IsJsWhitespace(s[j - 1]) then j else TrimEndIndex(s, lo, j - 1)
  }

  /** `s.trim()`. */
  function Trim(s: string): (r: string)
    ensures r == [] || (!IsJsWhitespace(r[0]) && !IsJsWhitespace(r[|r| - 1]))
  {
    var lo := TrimStartIndex(s, 0);
    var hi := TrimEndIndex(s, lo, |s|);
    s[lo..hi]
  }

  /** Trimming cuts only whitespace, from both ends: the result is a slice of
      the text with nothing but whitespace before and after it. */
  lemma TrimCutsOnlyBlanks(s: string)
    ensures exists lo, hi :: 0 <= lo <= hi <= |s| && Trim(s) == s[lo..hi]
                             && BlankBetween(s, 0, lo) && BlankBetween(s, hi, |s|)
  {
    var lo := TrimStartIndex(s, 0);
    var hi := TrimEndIndex(s, lo, |s|);
    assert Trim(s) == s[lo..hi];
  }

  /** Whitespace-only input counts as empty. */
  lemma TrimEmptyIffBlank(s: string)
    ensures Trim(s) == "" <==> Blank(s)
  {
    var lo := TrimStartIndex(s, 0);
    var hi := TrimEndIndex(s, lo, |s|);
    if Trim(s) == "" {
      assert lo == hi;
      assert BlankBetween(s, 0, lo) && BlankBetween(s, lo, |s|);
    }
  }

  /** Trimming twice is trimming once. */
  lemma TrimIdempotent(s: string)
    ensures Trim(Trim(s)) == Trim(s)
  {
  }

  /** `!s.trim()`: the field counts as not filled in. */
  function Missing(s: string): (b: bool)
    ensures b <==> Blank(s)
  {
    TrimEmptyIffBlank(s);
    Trim(s) == ""
  }

  /** The form's state: the three text fields. */
  class ContactForm {
    var name: string
    var phone: string
    var message: string

    constructor()
      ensures name == "" && phone == "" && message == ""
    {
      name, phone, message := "", "", "";
    }

    /** `setForm({ ...form, name: e.target.value })`. */
    method SetName(v: string)
      modifies this
      ensures name == v && phone == old(phone) && message == old(message)
    {
      name := v;
    }

    method SetPhone(v: string)
      modifies this
      ensures phone == v && name == old(name) && message == old(message)
    {
      phone := v;
    }

    method SetMessage(v: string)
      modifies this
      ensures message == v && name == old(name) && phone == old(phone)
    {
      message := v;
    }

    /** `handleSubmit`: rejected, leaving the form as it is, when any field is
      blank; otherwise the message is sent and all three fields are cleared. */
    method Submit() returns (sent: bool)
      modifies this
      ensures sent <==> !Blank(old(name)) && !Blank(old(phone)) && !Blank(old(message))
      ensures sent ==> name == "" && phone == "" && message == ""
      ensures !sent ==> name == old(name) && phone == old(phone) && message == old(message)
    {
      if Missing(name) || Missing(phone) || Missing(message) {
        return false;
      }
      name, phone, message := "", "", "";
      return true;
    }
  }
}
