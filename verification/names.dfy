/** Dotted resource names, as the protocol and the runtime contract both spell them. */
module Names {
  import opened Wire

  /** The control characters U+0000-001F and U+007F-009F, in a well-formed string. */
  predicate ContainsControl(text: bytes) {
    exists i :: 0 <= i < |text| && ControlAt(text, i)
  }

  predicate ControlAt(text: bytes, i: nat)
    requires i < |text|
  {
    text[i] < 0x20 || text[i] == 0x7f || (text[i] == 0xc2 && i + 1 < |text| && 0x80 <= text[i + 1] <= 0x9f)
  }

  const DOT: byte := 0x2e
  const STAR: byte := 0x2a

  predicate DottedName(text: bytes) {
    && ValidUtf8(text) && 1 <= |text| <= 256
    && !ContainsControl(text)
    && STAR !in text
    && text[0] != DOT && text[|text| - 1] != DOT
    && forall i :: 0 <= i < |text| - 1 ==> !(text[i] == DOT && text[i + 1] == DOT)
  }
}
