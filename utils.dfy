/** Small helpers shared by the toolchain: C-style option values, character
    codes, and the `substring` / `min` functions of include/utils.c. */
module Utils {

  /** A nullable pointer: `None` stands for C's NULL. */
  datatype Option<T> = None | Some(value: T)

  /** The value of a C `char` holding `c`: bytes 0x80..0xFF read as negative
      numbers (the platform's `char` is signed); other characters keep their code. */
  function CharCode(c: char): int
  {
    if c as int < 128 || c as int >= 256 then c as int else c as int - 256
  }

  /** `CharCode` loses nothing: different characters have different codes. */
  lemma CharCodeInjective(a: char, b: char)
    ensures CharCode(a) == CharCode(b) <==> a == b
  {
  }

  /** The characters of `s` from `start` up to (not including) `end` as a
      C string would hold them, or None where `substring` returns NULL. */
  function Slice(s: string, start: nat, end: nat): Option<string>
    requires start <= end <= |s|
  {
    if start == end then None else Some(s[start..end])
  }

  /** `substring`: a fresh buffer of `end - start + 1` characters holding
      `s[start..end]` followed by the NUL terminator; NULL for an empty range.
      The input is a value, so it cannot be changed. */
  method Substring(s: string, start: nat, end: nat) returns (r: Option<seq<char>>)
    requires start <= end <= |s|
    ensures r.None? <==> start == end
    ensures r.Some? ==> |r.value| == end - start + 1
    ensures r.Some? ==> forall i :: 0 <= i < end - start ==> r.value[i] == s[start + i]
    ensures r.Some? ==> r.value[end - start] == '\0'
    ensures r.Some? ==> Slice(s, start, end) == Some(r.value[..end - start])
  {
    if start == end {
      return None;
    }
    var size := end - start + 1;
    var result := new char[size];
    var i := start;
    while i < end
      invariant start <= i <= end
      invariant forall k :: 0 <= k < i - start ==> result[k] == s[start + k]
    {
      result[i - start] := s[i];
      i := i + 1;
    }
    result[size - 1] := '\0';
    r := Some(result[..]);
    assert r.value[..end - start] == s[start..end];
  }

  /** `min`: the smaller of the two arguments. */
  function Min(a: int, b: int): (r: int)
    ensures r <= a && r <= b
    ensures r == a || r == b
  {
    if a > b then b else a
  }
}
