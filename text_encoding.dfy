/**
 * Character encodings, as far as the structure cards need them: the UTF-8
 * bytes of a code point, and the Mac OS Roman reading of a byte. Text
 * written as UTF-8 and read back as Mac OS Roman turns every non-ASCII
 * character into two to four unrelated ones.
 */
module TextEncoding {
  /** The UTF-8 encoding of one Unicode scalar value (RFC 3629, section 3). */
  function Utf8(cp: nat): (bytes: seq<nat>)
    requires cp < 0x11_0000
    ensures 1 <= |bytes| <= 4 && forall i :: 0 <= i < |bytes| ==> bytes[i] < 256
    ensures (|bytes| == 1) <==> cp < 0x80
  {
    if cp < 0x80 then [cp]
    else if cp < 0x800 then [0xC0 + cp / 64, 0x80 + cp % 64]
    else if cp < 0x1_0000 then [0xE0 + cp / 4096, 0x80 + (cp / 64) % 64, 0x80 + cp % 64]
    else [0xF0 + cp / 262144, 0x80 + (cp / 4096) % 64, 0x80 + (cp / 64) % 64, 0x80 + cp % 64]
  }

  /** One byte read as Mac OS Roman; the lower half is ASCII. */
  function MacRoman(b: nat): char
    requires b < 256
  {
    if b < 128 then b as char
    else match b
    case 0x80 => '\U{00C4}'
    case 0x81 => '\U{00C5}'
    case 0x82 => '\U{00C7}'
    case 0x83 => '\U{00C9}'
    case 0x84 => '\U{00D1}'
    case 0x85 => '\U{00D6}'
    case 0x86 => '\U{00DC}'
    case 0x87 => '\U{00E1}'
    case 0x88 => '\U{00E0}'
    case 0x89 => '\U{00E2}'
    case 0x8A => '\U{00E4}'
    case 0x8B => '\U{00E3}'
    case 0x8C => '\U{00E5}'
    case 0x8D => '\U{00E7}'
    case 0x8E => '\U{00E9}'
    case 0x8F => '\U{00E8}'
    case 0x90 => '\U{00EA}'
    case 0x91 => '\U{00EB}'
    case 0x92 => '\U{00ED}'
    case 0x93 => '\U{00EC}'
    case 0x94 => '\U{00EE}'
    case 0x95 => '\U{00EF}'
    case 0x96 => '\U{00F1}'
    case 0x97 => '\U{00F3}'
    case 0x98 => '\U{00F2}'
    case 0x99 => '\U{00F4}'
    case 0x9A => '\U{00F6}'
    case 0x9B => '\U{00F5}'
    case 0x9C => '\U{00FA}'
    case 0x9D => '\U{00F9}'
    case 0x9E => '\U{00FB}'
    case 0x9F => '\U{00FC}'
    case 0xA0 => '\U{2020}'
    case 0xA1 => '\U{00B0}'
    case 0xA2 => '\U{00A2}'
    case 0xA3 => '\U{00A3}'
    case 0xA4 => '\U{00A7}'
    case 0xA5 => '\U{2022}'
    case 0xA6 => '\U{00B6}'
    case 0xA7 => '\U{00DF}'
    case 0xA8 => '\U{00AE}'
    case 0xA9 => '\U{00A9}'
    case 0xAA => '\U{2122}'
    case 0xAB => '\U{00B4}'
    case 0xAC => '\U{00A8}'
    case 0xAD => '\U{2260}'
    case 0xAE => '\U{00C6}'
    case 0xAF => '\U{00D8}'
    case 0xB0 => '\U{221E}'
    case 0xB1 => '\U{00B1}'
    case 0xB2 => '\U{2264}'
    case 0xB3 => '\U{2265}'
    case 0xB4 => '\U{00A5}'
    case 0xB5 => '\U{00B5}'
    case 0xB6 => '\U{2202}'
    case 0xB7 => '\U{2211}'
    case 0xB8 => '\U{220F}'
    case 0xB9 => '\U{03C0}'
    case 0xBA => '\U{222B}'
    case 0xBB => '\U{00AA}'
    case 0xBC => '\U{00BA}'
    case 0xBD => '\U{03A9}'
    case 0xBE => '\U{00E6}'
    case 0xBF => '\U{00F8}'
    case 0xC0 => '\U{00BF}'
    case 0xC1 => '\U{00A1}'
    case 0xC2 => '\U{00AC}'
    case 0xC3 => '\U{221A}'
    case 0xC4 => '\U{0192}'
    case 0xC5 => '\U{2248}'
    case 0xC6 => '\U{2206}'
    case 0xC7 => '\U{00AB}'
    case 0xC8 => '\U{00BB}'
    case 0xC9 => '\U{2026}'
    case 0xCA => '\U{00A0}'
    case 0xCB => '\U{00C0}'
    case 0xCC => '\U{00C3}'
    case 0xCD => '\U{00D5}'
    case 0xCE => '\U{0152}'
    case 0xCF => '\U{0153}'
    case 0xD0 => '\U{2013}'
    case 0xD1 => '\U{2014}'
    case 0xD2 => '\U{201C}'
    case 0xD3 => '\U{201D}'
    case 0xD4 => '\U{2018}'
    case 0xD5 => '\U{2019}'
    case 0xD6 => '\U{00F7}'
    case 0xD7 => '\U{25CA}'
    case 0xD8 => '\U{00FF}'
    case 0xD9 => '\U{0178}'
    case 0xDA => '\U{2044}'
    case 0xDB => '\U{20AC}'
    case 0xDC => '\U{2039}'
    case 0xDD => '\U{203A}'
    case 0xDE => '\U{FB01}'
    case 0xDF => '\U{FB02}'
    case 0xE0 => '\U{2021}'
    case 0xE1 => '\U{00B7}'
    case 0xE2 => '\U{201A}'
    case 0xE3 => '\U{201E}'
    case 0xE4 => '\U{2030}'
    case 0xE5 => '\U{00C2}'
    case 0xE6 => '\U{00CA}'
    case 0xE7 => '\U{00C1}'
    case 0xE8 => '\U{00CB}'
    case 0xE9 => '\U{00C8}'
    case 0xEA => '\U{00CD}'
    case 0xEB => '\U{00CE}'
    case 0xEC => '\U{00CF}'
    case 0xED => '\U{00CC}'
    case 0xEE => '\U{00D3}'
    case 0xEF => '\U{00D4}'
    case 0xF0 => '\U{F8FF}'
    case 0xF1 => '\U{00D2}'
    case 0xF2 => '\U{00DA}'
    case 0xF3 => '\U{00DB}'
    case 0xF4 => '\U{00D9}'
    case 0xF5 => '\U{0131}'
    case 0xF6 => '\U{02C6}'
    case 0xF7 => '\U{02DC}'
    case 0xF8 => '\U{00AF}'
    case 0xF9 => '\U{02D8}'
    case 0xFA => '\U{02D9}'
    case 0xFB => '\U{02DA}'
    case 0xFC => '\U{00B8}'
    case 0xFD => '\U{02DD}'
    case 0xFE => '\U{02DB}'
    case 0xFF => '\U{02C7}'
    case _ => '\U{FFFD}'
  }

  function MacRomanBytes(bytes: seq<nat>): (s: string)
    requires forall i :: 0 <= i < |bytes| ==> bytes[i] < 256
    ensures |s| == |bytes|
  {
    seq(|bytes|, i requires 0 <= i < |bytes| => MacRoman(bytes[i]))
  }

  /** A string encoded as UTF-8 and then read as Mac OS Roman. */
  function Misread(s: string): (r: string)
    ensures |r| >= |s|
  {
    if s == [] then [] else MacRomanBytes(Utf8(s[0] as nat)) + Misread(s[1..])
  }

  /** The misreading of a single character. */
  lemma MisreadChar(c: char)
    ensures Misread([c]) == MacRomanBytes(Utf8(c as nat))
  {
    assert [c][1..] == [];
  }

  /** Misreading distributes over concatenation. */
  lemma {:induction false} MisreadAppend(s: string, t: string)
    ensures Misread(s + t) == Misread(s) + Misread(t)
  {
    if s != [] {
      assert (s + t)[0] == s[0];
      assert (s + t)[1..] == s[1..] + t;
      MisreadAppend(s[1..], t);
    } else {
      assert s + t == t;
    }
  }

  /** ASCII text survives the misreading; nothing else does. */
  lemma {:induction false} MisreadKeepsAscii(s: string)
    ensures Misread(s) == s <==> forall i :: 0 <= i < |s| ==> s[i] as nat < 0x80
  {
    if s != [] {
      MisreadKeepsAscii(s[1..]);
      var head := MacRomanBytes(Utf8(s[0] as nat));
      if s[0] as nat < 0x80 {
        assert head == [s[0]];
        assert Misread(s) == [s[0]] + Misread(s[1..]);
        assert s == [s[0]] + s[1..];
        if Misread(s) == s {
          assert Misread(s[1..]) == s[1..];
        }
        if forall i :: 0 <= i < |s| ==> s[i] as nat < 0x80 {
          assert forall i :: 0 <= i < |s[1..]| ==> s[1..][i] as nat < 0x80 by {
            forall i | 0 <= i < |s[1..]| ensures s[1..][i] as nat < 0x80 { assert s[1..][i] == s[i + 1]; }
          }
        }
      } else {
        assert |Misread(s)| >= |head| + |s| - 1 > |s|;
      }
    }
  }
}
