/** `time_prefix` of `src/fetch/uptime.rs`: a one-byte time field gets a
    leading zero. The test is on the length in bytes of the UTF-8 text. */
module Uptime {
  /** The number of bytes UTF-8 uses for `c`. */
  function Utf8Width(c: char): (w: nat)
    ensures 1 <= w <= 4
    ensures w == 1 <==> c as int < 0x80
  {
    if c as int < 0x80 then 1
    else if c as int < 0x800 then 2
    else if c as int < 0x10000 then 3
    else 4
  }

  /** `str::len`: the length in bytes. */
  function ByteLength(s: string): nat
    decreases |s|
  {
    if |s| == 0 then 0 else Utf8Width(s[0]) + ByteLength(s[1..])
  }

  /** A string is one byte long exactly when it is a single ASCII character. */
  lemma {:induction false} OneByte(s: string)
    ensures ByteLength(s) == 1 <==> |s| == 1 && s[0] as int < 0x80
  {
    if |s| > 1 {
      assert ByteLength(s) == Utf8Width(s[0]) + Utf8Width(s[1]) + ByteLength(s[2..]) by {
        assert s[1..][1..] == s[2..];
      }
    } else if |s| == 1 {
      assert s[1..] == [];
    }
  }

  /** `time_prefix`: a one-byte string gets a leading `'0'`; any other is
      returned as it is. */
  function TimePrefix(s: string): (r: string)
  {
    if ByteLength(s) == 1 then "0" + s else s
  }

  /** The result is never one byte long, and it ends with the input. */
  lemma TimePrefixShape(s: string)
    ensures ByteLength(TimePrefix(s)) != 1
    ensures |s| <= |TimePrefix(s)| && TimePrefix(s)[|TimePrefix(s)| - |s|..] == s
    ensures TimePrefix(s) != s <==> |s| == 1 && s[0] as int < 0x80
  {
    OneByte(s);
    OneByte(TimePrefix(s));
  }

  /** Prefixing twice is prefixing once. */
  lemma TimePrefixIdempotent(s: string)
    ensures TimePrefix(TimePrefix(s)) == TimePrefix(s)
  {
    TimePrefixShape(s);
  }

  /** A single digit is padded, two digits and the empty string are not. */
  lemma TimePrefixExamples()
    ensures TimePrefix("7") == "07"
    ensures TimePrefix("42") == "42"
    ensures TimePrefix("") == ""
  {
    OneByte("7");
    OneByte("42");
  }
}
