// Small vocabulary shared by every module of the model.
module Base {

  datatype Option<+T> = None | Some(value: T)

  datatype Result<+T, +E> = Ok(value: T) | Err(error: E)

  // The server's error classes; each maps to one HTTP status.
  datatype Error =
    | Unauthenticated | Forbidden | NotFound | Locked | BadRequest
    | Conflict | MethodNotAllowed | TooMany | Internal

  newtype byte = x: int | 0 <= x < 256

  // Go's len() counts bytes: the width of one character in UTF-8.
  function Utf8Width(c: char): nat {
    var n := c as int;
    if n < 0x80 then 1 else if n < 0x800 then 2 else if n < 0x1_0000 then 3 else 4
  }

  function Utf8Len(s: string): nat {
    if s == "" then 0 else Utf8Width(s[0]) + Utf8Len(s[1..])
  }

  // How many characters have this code or a higher one.
  function From(s: string, code: int): nat {
    if s == "" then 0 else (if s[0] as int >= code then 1 else 0) + From(s[1..], code)
  }

  // One byte a character, one more from U+0080 on, from U+0800 on and from
  // U+10000 on.
  lemma {:induction false} Utf8Counts(s: string)
    ensures Utf8Len(s) == |s| + From(s, 0x80) + From(s, 0x800) + From(s, 0x1_0000)
  {
    if s != "" {
      Utf8Counts(s[1..]);
    }
  }

  predicate HasPrefix(s: string, prefix: string) {
    prefix <= s
  }

  predicate HasSuffix(s: string, suffix: string) {
    |suffix| <= |s| && s[|s| - |suffix|..] == suffix
  }

  function TrimPrefix(s: string, prefix: string): string {
    if HasPrefix(s, prefix) then s[|prefix|..] else s
  }

  function TrimSuffix(s: string, suffix: string): string {
    if HasSuffix(s, suffix) then s[..|s| - |suffix|] else s
  }

  // Prefixes and suffixes are the ends of a concatenation, and trimming takes
  // them off.
  lemma EndsAre(s: string, part: string)
    ensures HasPrefix(s, part) <==> exists rest :: s == part + rest
    ensures HasSuffix(s, part) <==> exists rest :: s == rest + part
    ensures TrimPrefix(part + s, part) == s && TrimSuffix(s + part, part) == s
  {
    if HasPrefix(s, part) {
      assert s == part + s[|part|..];
    }
    if HasSuffix(s, part) {
      assert s == s[..|s| - |part|] + part;
    }
    assert (s + part)[|s|..] == part;
  }
}
