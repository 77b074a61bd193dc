/** Shared vocabulary of the password scorer: a password is the sequence of
    its UTF-16 code units (the values `charCodeAt` returns), restricted to
    characters of the Basic Multilingual Plane, so one character is one unit. */
module Password {

  /** One UTF-16 code unit that is a whole character on its own: any value
      below 0x10000 except the surrogate range 0xD800..0xDFFF, whose units
      only occur in pairs that encode one character outside the BMP. */
  type CodeUnit = c: int | 0 <= c < 0x1_0000 && !(0xD800 <= c < 0xE000)

  type Pwd = seq<CodeUnit>

  datatype Option<+T> = None | Some(value: T)

  function Max(a: int, b: int): int { if a < b then b else a }

  function MaxReal(a: real, b: real): real { if a < b then b else a }

  function MinReal(a: real, b: real): real { if a < b then a else b }
}
