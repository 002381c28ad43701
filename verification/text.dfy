/**
 * `String.prototype.trim` as the start screen applies it to the two name
 * fields: leading and trailing white space and line terminators are removed.
 */
module Text {

  /**
   * The characters ECMAScript counts as WhiteSpace or LineTerminator (section
   * 12.2 and 12.3 of ECMA-262): tab, line feed, vertical tab, form feed,
   * carriage return, the space separators of Unicode category Zs, the byte
   * order mark, and the line and paragraph separators.
   */
  predicate IsTrimmable(c: char) {
    c == '\t' || c == '\n' || c == '\U{000B}' || c == '\U{000C}' || c == '\r' ||
    c == ' ' || c == '\U{00A0}' || c == '\U{1680}' || ('\U{2000}' <= c <= '\U{200A}') ||
    c == '\U{2028}' || c == '\U{2029}' || c == '\U{202F}' || c == '\U{205F}' ||
    c == '\U{3000}' || c == '\U{FEFF}'
  }

  /** `s` without its leading trimmable characters. */
  function TrimStart(s: string): string {
    if s != [] && IsTrimmable(s[0]) then TrimStart(s[1..]) else s
  }

  /** `s` without its trailing trimmable characters. */
  function TrimEnd(s: string): string {
    if s != [] && IsTrimmable(s[|s| - 1]) then TrimEnd(s[..|s| - 1]) else s
  }

  /** `s.trim()`. */
  function Trim(s: string): string {
    TrimEnd(TrimStart(s))
  }

  /** `t` is the part of `s` from index `i` on, with only trimmable characters around it. */
  ghost predicate TrimmedAt(s: string, t: string, i: int) {
    0 <= i <= |s| - |t| && t == s[i..i + |t|] &&
    (forall j :: 0 <= j < i ==> IsTrimmable(s[j])) &&
    (forall j :: i + |t| <= j < |s| ==> IsTrimmable(s[j]))
  }

  /** Only leading trimmable characters are dropped, and all of them. */
  lemma {:induction false} TrimStartShape(s: string)
    ensures TrimmedAt(s, TrimStart(s), |s| - |TrimStart(s)|)
    ensures TrimStart(s) == [] || !IsTrimmable(TrimStart(s)[0])
  {
    if s != [] && IsTrimmable(s[0]) {
      TrimStartShape(s[1..]);
    }
  }

  /** Only trailing trimmable characters are dropped, and all of them. */
  lemma {:induction false} TrimEndShape(s: string)
    ensures TrimmedAt(s, TrimEnd(s), 0)
    ensures TrimEnd(s) == [] || !IsTrimmable(TrimEnd(s)[|TrimEnd(s)| - 1])
  {
    if s != [] && IsTrimmable(s[|s| - 1]) {
      TrimEndShape(s[..|s| - 1]);
    }
  }

  /**
   * `s.trim()` is the stretch of `s` between its leading and trailing
   * trimmable characters, and neither starts nor ends with one.
   */
  lemma TrimShape(s: string)
    ensures exists i :: TrimmedAt(s, Trim(s), i)
    ensures Trim(s) == [] || (!IsTrimmable(Trim(s)[0]) && !IsTrimmable(Trim(s)[|Trim(s)| - 1]))
  {
    var u := TrimStart(s);
    var t := TrimEnd(u);
    TrimStartShape(s);
    TrimEndShape(u);
    var i := |s| - |u|;
    assert t == s[i..i + |t|];
    assert forall j :: i + |t| <= j < |s| ==> s[j] == u[j - i];
    assert TrimmedAt(s, t, i);
    assert Trim(s) == t;
  }

  /** A name is refused exactly when it consists of trimmable characters only. */
  lemma TrimEmptyIff(s: string)
    ensures Trim(s) == [] <==> forall j :: 0 <= j < |s| ==> IsTrimmable(s[j])
  {
    TrimShape(s);
    var t := Trim(s);
    var i :| TrimmedAt(s, t, i);
    if t != [] {
      assert t[0] == s[i];
    }
  }

  /** Trimming twice changes nothing more. */
  lemma {:induction false} TrimIdempotent(s: string)
    ensures Trim(Trim(s)) == Trim(s)
  {
    TrimShape(s);
    var t := Trim(s);
    TrimStartKeeps(t);
    TrimEndKeeps(t);
  }

  lemma TrimStartKeeps(t: string)
    requires t == [] || !IsTrimmable(t[0])
    ensures TrimStart(t) == t
  {
  }

  lemma TrimEndKeeps(t: string)
    requires t == [] || !IsTrimmable(t[|t| - 1])
    ensures TrimEnd(t) == t
  {
  }
}
