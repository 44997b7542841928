/** The few string operations the sources take from JavaScript. */
module Text {
  /** What String.prototype.trim removes. */
  predicate Whitespace(c: char) {
    || c == ' ' || '\U{0009}' <= c <= '\U{000D}' || c == '\U{00A0}' || c == '\U{FEFF}'
    || c == '\U{2028}' || c == '\U{2029}' || c == '\U{1680}' || '\U{2000}' <= c <= '\U{200A}'
    || c == '\U{202F}' || c == '\U{205F}' || c == '\U{3000}'
  }

  function TrimStart(s: string): string {
    if s != "" && Whitespace(s[0]) then TrimStart(s[1..]) else s
  }

  function TrimEnd(s: string): string {
    if s != "" && Whitespace(s[|s| - 1]) then TrimEnd(s[..|s| - 1]) else s
  }

  function Trim(s: string): string {
    TrimEnd(TrimStart(s))
  }

  /** Neither end is whitespace. */
  predicate Trimmed(s: string) {
    s != "" ==> !Whitespace(s[0]) && !Whitespace(s[|s| - 1])
  }

  lemma {:induction false} StartTrimmed(s: string)
    ensures TrimStart(s) != "" ==> !Whitespace(TrimStart(s)[0])
  {
    hide Whitespace;
    if s != "" && Whitespace(s[0]) { StartTrimmed(s[1..]); }
  }

  lemma {:induction false} EndTrimmed(s: string)
    ensures TrimEnd(s) <= s && (TrimEnd(s) != "" ==> !Whitespace(TrimEnd(s)[|TrimEnd(s)| - 1]))
  {
    hide Whitespace;
    if s != "" && Whitespace(s[|s| - 1]) { EndTrimmed(s[..|s| - 1]); }
  }

  /** The trimmed texts are exactly those that trimming leaves alone. */
  lemma TrimmedIff(s: string)
    ensures Trimmed(Trim(s)) && (Trimmed(s) <==> Trim(s) == s)
  {
    hide Whitespace;
    StartTrimmed(s);
    EndTrimmed(TrimStart(s));
  }

  predicate StartsWith(s: string, prefix: string) {
    |prefix| <= |s| && s[..|prefix|] == prefix
  }
}
