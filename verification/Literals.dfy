/** Double-quoted literals as Go's %q and YAML share them, read back: a reader of
    its own, which knows nothing of how they are written. */
module Literals {
  import opened Wrappers

  function HexValue(c: char): Option<nat> {
    if '0' <= c <= '9' then Some(c as int - '0' as int)
    else if 'a' <= c <= 'f' then Some(c as int - 'a' as int + 10)
    else None
  }

  /** The character a one-letter escape stands for. */
  function Named(c: char): Option<char> {
    match c
    case '"' => Some('"')
    case '\\' => Some('\\')
    case 'n' => Some('\n')
    case 't' => Some('\t')
    case 'r' => Some('\r')
    case 'a' => Some(7 as char)
    case 'b' => Some(8 as char)
    case 'v' => Some(11 as char)
    case 'f' => Some(12 as char)
    case _ => None
  }

  function Prepend(c: char, rest: Option<string>): Option<string> {
    if rest.None? then None else Some([c] + rest.value)
  }

  /** The text between the quotes. */
  function Unescape(s: string): Option<string> {
    if s == "" then Some("")
    else if s[0] == '"' || s[0] == '\n' then None
    else if s[0] != '\\' then Prepend(s[0], Unescape(s[1..]))
    else if |s| < 2 then None
    else if s[1] != 'x' then
      if Named(s[1]).None? then None else Prepend(Named(s[1]).value, Unescape(s[2..]))
    else if |s| < 4 || HexValue(s[2]).None? || HexValue(s[3]).None? then None
    else Prepend((HexValue(s[2]).value * 16 + HexValue(s[3]).value) as char, Unescape(s[4..]))
  }

  /** The value of a literal. */
  function Unquote(lit: string): Option<string> {
    if |lit| < 2 || lit[0] != '"' || lit[|lit| - 1] != '"' then None
    else Unescape(lit[1..|lit| - 1])
  }
}
