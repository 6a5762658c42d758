/** What several parts share: optional values, and trimming as JavaScript does it. */
module Common {

  datatype Option<T> = None | Some(value: T)

  predicate IsSpace(c: char) {
    || '\t' <= c <= '\r' || c == ' ' || c == '\U{00A0}' || c == '\U{1680}' || '\U{2000}' <= c <= '\U{200A}'
    || c == '\U{2028}' || c == '\U{2029}' || c == '\U{202F}' || c == '\U{205F}' || c == '\U{3000}' || c == '\U{FEFF}'
  }

  function Trim(s: string): string {
    if s != "" && IsSpace(s[0]) then Trim(s[1..])
    else if s != "" && IsSpace(s[|s| - 1]) then Trim(s[..|s| - 1])
    else s
  }

  predicate AllSpace(s: string) {
    forall k | 0 <= k < |s| :: IsSpace(s[k])
  }

  /** No space at either end. */
  predicate Tight(s: string) {
    s != "" ==> !IsSpace(s[0]) && !IsSpace(s[|s| - 1])
  }

  /** Trimming takes spaces off both ends, and only spaces. */
  lemma {:induction false} TrimIsTheInnerText(s: string) returns (front: string, back: string)
    ensures AllSpace(front) && AllSpace(back) && Tight(Trim(s)) && s == front + Trim(s) + back
  {
    hide IsSpace;
    front, back := "", "";
    if s != "" && IsSpace(s[0]) {
      front, back := TrimIsTheInnerText(s[1..]);
      front := [s[0]] + front;
      assert Trim(s) == Trim(s[1..]) && s == [s[0]] + s[1..];
    } else if s != "" && IsSpace(s[|s| - 1]) {
      front, back := TrimIsTheInnerText(s[..|s| - 1]);
      back := back + [s[|s| - 1]];
      assert Trim(s) == Trim(s[..|s| - 1]) && s == s[..|s| - 1] + [s[|s| - 1]];
    }
  }
}
