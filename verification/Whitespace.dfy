/** White space and line terminators of ECMAScript, which String.prototype.trim removes. */
module Whitespace {
  predicate IsTrimmed(c: int) {
    0x09 <= c <= 0x0d || c == 0x20 || c == 0xa0 || c == 0x1680 || 0x2000 <= c <= 0x200a
    || c == 0x2028 || c == 0x2029 || c == 0x202f || c == 0x205f || c == 0x3000 || c == 0xfeff
  }
}
