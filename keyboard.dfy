/** The per-OS keyboard tables: from a symbol (a character of a command,
    or the name of a non-printable key) to the native key and a shift flag
    (0: as is, 1: needs the Shift modifier). Each table is immutable; it is
    written here as a lookup function whose branches are the dictionary
    literal and the loops that extend it. */
module Keyboard {
  import opened Common

  /** The name of a non-printable key. A one-character dictionary key of
      the source is a character, so no key name has exactly one. */
  type KeyName = s: string | |s| != 1 witness "Up"

  /** A key of a table: a single character, or a named key such as
      "Super_L" or "VK_LEFT". */
  datatype Symbol = Char(c: char) | Named(name: KeyName)

  /** The shift flag of a table entry. */
  type Shift = s: int | 0 <= s <= 1

  /** A Linux entry: the X keysym name and the shift flag. */
  datatype XKey = XKey(keysym: string, shift: Shift)

  /** A Windows entry: the virtual-key code and the shift flag. */
  datatype VKey = VKey(code: int, shift: Shift)

  /** Virtual-key code of the Shift key, pressed around shifted symbols. */
  const VkShift := 0x10

  predicate IsDigit(c: char) { '0' <= c <= '9' }
  predicate IsLower(c: char) { 'a' <= c <= 'z' }
  predicate IsUpper(c: char) { 'A' <= c <= 'Z' }

  /** The literal part of the Linux dictionary: whitespace, control
      characters and punctuation. */
  function LinuxPunctuation(c: char): Option<XKey> {
    match c
    case '\t' => Some(XKey("Tab", 0))
    case '\n' => Some(XKey("Return", 0))
    case '\r' => Some(XKey("Return", 0))
    case '\U{8}' => Some(XKey("BackSpace", 0))
    case ' ' => Some(XKey("space", 0))
    case '!' => Some(XKey("exclam", 1))
    case '#' => Some(XKey("numbersign", 1))
    case '%' => Some(XKey("percent", 1))
    case '$' => Some(XKey("dollar", 1))
    case '&' => Some(XKey("ampersand", 1))
    case '"' => Some(XKey("quotedbl", 1))
    case '\'' => Some(XKey("apostrophe", 0))
    case '(' => Some(XKey("parenleft", 1))
    case ')' => Some(XKey("parenright", 1))
    case '*' => Some(XKey("asterisk", 1))
    case '=' => Some(XKey("equal", 0))
    case '+' => Some(XKey("plus", 1))
    case ',' => Some(XKey("comma", 0))
    case '-' => Some(XKey("minus", 0))
    case '.' => Some(XKey("period", 0))
    case '/' => Some(XKey("slash", 0))
    case ':' => Some(XKey("colon", 1))
    case ';' => Some(XKey("semicolon", 0))
    case '<' => Some(XKey("less", 0))
    case '>' => Some(XKey("greater", 1))
    case '?' => Some(XKey("question", 1))
    case '@' => Some(XKey("at", 1))
    case '[' => Some(XKey("bracketleft", 0))
    case ']' => Some(XKey("bracketright", 0))
    case '^' => Some(XKey("asciicircum", 1))
    case '_' => Some(XKey("underscore", 1))
    case '`' => Some(XKey("grave", 0))
    case '{' => Some(XKey("braceleft", 1))
    case '\\' => Some(XKey("backslash", 0))
    case '|' => Some(XKey("bar", 1))
    case '}' => Some(XKey("braceright", 1))
    case '~' => Some(XKey("asciitilde", 1))
    case _ => None
  }

  /** The named, non-printable keys of the Linux table; each maps to the
      keysym of the same name, unshifted. The list is written in five
      parts, following the source's layout. */
  const LinuxKeyNames: seq<KeyName> := ControlKeys + CursorKeys + KeypadKeys + FunctionKeys + LockKeys

  const ControlKeys: seq<KeyName> := [
    "Shift_L", "Control_L", "Alt_L", "Pause", "Caps_Lock",
    "Escape", "Page_Up", "Page_Down", "End", "Home" ]

  const CursorKeys: seq<KeyName> := [
    "Left", "Up", "Right", "Down", "Print",
    "Insert", "Delete", "Help", "Super_L", "Super_R" ]

  const KeypadKeys: seq<KeyName> := [
    "KP_0", "KP_1", "KP_2", "KP_3", "KP_4", "KP_5", "KP_6",
    "KP_7", "KP_8", "KP_9", "KP_Multiply", "KP_Add",
    "KP_Separator", "KP_Subtract", "KP_Decimal", "KP_Divide" ]

  const FunctionKeys: seq<KeyName> := [
    "F1", "F2", "F3", "F4", "F5", "F6", "F7", "F8", "F9", "F10", "F11", "F12" ]

  const LockKeys: seq<KeyName> := [ "Num_Lock", "Scroll_Lock", "Shift_R", "Control_R", "Alt_R" ]

  /** The Linux table: the literal, then the named keys, then digits and
      lower-case letters unshifted, then upper-case letters shifted. */
  function LinuxKeyboard(s: Symbol): Option<XKey> {
    match s
    case Char(c) =>
      if IsDigit(c) || IsLower(c) then Some(XKey([c], 0))
      else if IsUpper(c) then Some(XKey([c], 1))
      else LinuxPunctuation(c)
    case Named(n) =>
      if n in LinuxKeyNames then Some(XKey(n, 0)) else None
  }

  /** The literal part of the Windows dictionary: US-layout virtual-key
      codes, with the shifted symbol on the same key as its base. */
  function WindowsPunctuation(c: char): Option<VKey> {
    match c
    case '\t' => Some(VKey(9, 0))
    case '\n' => Some(VKey(13, 0))
    case ' ' => Some(VKey(32, 0))
    case '!' => Some(VKey(49, 1))
    case '@' => Some(VKey(50, 1))
    case '#' => Some(VKey(51, 1))
    case '$' => Some(VKey(52, 1))
    case '%' => Some(VKey(53, 1))
    case '^' => Some(VKey(54, 1))
    case '&' => Some(VKey(55, 1))
    case '*' => Some(VKey(56, 1))
    case '(' => Some(VKey(57, 1))
    case ')' => Some(VKey(48, 1))
    case ';' => Some(VKey(0xBA, 0))
    case ':' => Some(VKey(0xBA, 1))
    case '=' => Some(VKey(0xBB, 0))
    case '+' => Some(VKey(0xBB, 1))
    case ',' => Some(VKey(0xBC, 0))
    case '<' => Some(VKey(0xBC, 1))
    case '-' => Some(VKey(0xBD, 0))
    case '_' => Some(VKey(0xBD, 1))
    case '.' => Some(VKey(0xBE, 0))
    case '>' => Some(VKey(0xBE, 1))
    case '/' => Some(VKey(0xBF, 0))
    case '?' => Some(VKey(0xBF, 1))
    case '`' => Some(VKey(0xC0, 0))
    case '~' => Some(VKey(0xC0, 1))
    case '[' => Some(VKey(0xDB, 0))
    case '{' => Some(VKey(0xDB, 1))
    case '\\' => Some(VKey(0xDC, 0))
    case '|' => Some(VKey(0xDC, 1))
    case ']' => Some(VKey(0xDD, 0))
    case '}' => Some(VKey(0xDD, 1))
    case '\'' => Some(VKey(0xDE, 0))
    case '"' => Some(VKey(0xDE, 1))
    case _ => None
  }

  /** The named keys of the Windows table. */
  function WindowsNamedKey(n: string): Option<VKey> {
    match n
    case "VK_LWIN" => Some(VKey(0x5B, 0))
    case "VK_LEFT" => Some(VKey(0x25, 0))
    case "VK_UP" => Some(VKey(0x26, 0))
    case "VK_RIGHT" => Some(VKey(0x27, 0))
    case "VK_DOWN" => Some(VKey(0x28, 0))
    case _ => None
  }

  /** The Windows table: the literal, then digits by their own code,
      lower-case letters by the code of their upper-case letter, and
      upper-case letters by their own code, shifted. */
  function WindowsKeyboard(s: Symbol): Option<VKey> {
    match s
    case Char(c) =>
      if IsDigit(c) then Some(VKey(c as int, 0))
      else if IsLower(c) then Some(VKey(c as int - 32, 0))
      else if IsUpper(c) then Some(VKey(c as int, 1))
      else WindowsPunctuation(c)
    case Named(n) => WindowsNamedKey(n)
  }

  /** Whether the table of `os` has an entry for `s`. */
  predicate Supports(os: Os, s: Symbol) {
    match os
    case Linux => LinuxKeyboard(s).Some?
    case Windows => WindowsKeyboard(s).Some?
  }

  /** The loops that extend each dictionary never overwrite an entry of its
      literal part, so the order in which the dictionary is filled does not
      matter. */
  lemma LoopsDoNotOverwriteLiteral(c: char)
    requires IsDigit(c) || IsLower(c) || IsUpper(c)
    ensures LinuxPunctuation(c).None? && WindowsPunctuation(c).None?
  {
  }

  /** Linux: digits and lower-case letters are typed unshifted, upper-case
      letters shifted, each by the keysym that is the character itself. */
  lemma LinuxAlphanumeric(c: char)
    ensures IsDigit(c) || IsLower(c) ==> LinuxKeyboard(Char(c)) == Some(XKey([c], 0))
    ensures IsUpper(c) ==> LinuxKeyboard(Char(c)) == Some(XKey([c], 1))
  {
  }

  /** Windows: a lower-case letter is the key of its upper-case letter
      without Shift, the upper-case letter the same key with Shift, and a
      digit its own code without Shift. */
  lemma WindowsAlphanumeric(c: char)
    ensures IsLower(c) ==>
      var upper := (c as int - 32) as char;
      IsUpper(upper) && WindowsKeyboard(Char(c)) == Some(VKey(upper as int, 0))
      && WindowsKeyboard(Char(upper)) == Some(VKey(upper as int, 1))
    ensures IsDigit(c) ==> WindowsKeyboard(Char(c)) == Some(VKey(c as int, 0))
  {
  }

  /** The Shift key itself is not an entry of the Windows table, so the
      Shift bracket around a symbol never presses or releases its key. */
  lemma WindowsNeverShiftKey(s: Symbol)
    requires WindowsKeyboard(s).Some?
    ensures WindowsKeyboard(s).value.code != VkShift
  {
  }

  /** The unshifted character that shares a key with `c` on a US layout,
      as the Windows table arranges its shifted entries. */
  function UsBaseCharacter(c: char): char {
    match c
    case '!' => '1'
    case '@' => '2'
    case '#' => '3'
    case '$' => '4'
    case '%' => '5'
    case '^' => '6'
    case '&' => '7'
    case '*' => '8'
    case '(' => '9'
    case ')' => '0'
    case ':' => ';'
    case '+' => '='
    case '<' => ','
    case '_' => '-'
    case '>' => '.'
    case '?' => '/'
    case '~' => '`'
    case '{' => '['
    case '|' => '\\'
    case '}' => ']'
    case '"' => '\''
    case _ => if IsUpper(c) then (c as int + 32) as char else c
  }

  /** Windows: every shifted character is typed as Shift plus the key of its
      unshifted US-layout partner. */
  lemma WindowsShiftedSharesBaseKey(c: char)
    requires WindowsKeyboard(Char(c)).Some? && WindowsKeyboard(Char(c)).value.shift == 1
    ensures WindowsKeyboard(Char(UsBaseCharacter(c))) == Some(VKey(WindowsKeyboard(Char(c)).value.code, 0))
  {
  }

  /** Reads a Windows keystroke back as the character it types: the inverse
      of the character part of the Windows table. */
  function WindowsCharacterOf(k: VKey): Option<char> {
    if k.shift == 0 then
      if 48 <= k.code <= 57 then Some(k.code as char)
      else if 65 <= k.code <= 90 then Some((k.code + 32) as char)
      else match k.code
        case 9 => Some('\t')
        case 13 => Some('\n')
        case 32 => Some(' ')
        case 0xBA => Some(';')
        case 0xBB => Some('=')
        case 0xBC => Some(',')
        case 0xBD => Some('-')
        case 0xBE => Some('.')
        case 0xBF => Some('/')
        case 0xC0 => Some('`')
        case 0xDB => Some('[')
        case 0xDC => Some('\\')
        case 0xDD => Some(']')
        case 0xDE => Some('\'')
        case _ => None
    else
      if 65 <= k.code <= 90 then Some(k.code as char)
      else match k.code
        case 49 => Some('!')
        case 50 => Some('@')
        case 51 => Some('#')
        case 52 => Some('$')
        case 53 => Some('%')
        case 54 => Some('^')
        case 55 => Some('&')
        case 56 => Some('*')
        case 57 => Some('(')
        case 48 => Some(')')
        case 0xBA => Some(':')
        case 0xBB => Some('+')
        case 0xBC => Some('<')
        case 0xBD => Some('_')
        case 0xBE => Some('>')
        case 0xBF => Some('?')
        case 0xC0 => Some('~')
        case 0xDB => Some('{')
        case 0xDC => Some('|')
        case 0xDD => Some('}')
        case 0xDE => Some('"')
        case _ => None
  }

  /** Windows keystrokes are unambiguous: the keystroke of every supported
      character reads back as that character, so no two characters share a
      (code, shift) pair. */
  lemma WindowsKeystrokeRoundTrip(c: char)
    requires WindowsKeyboard(Char(c)).Some?
    ensures WindowsCharacterOf(WindowsKeyboard(Char(c)).value) == Some(c)
  {
  }

  /** Linux keystrokes are not unambiguous: carriage return and newline
      are both typed as Return. */
  lemma LinuxReturnIsShared()
    ensures LinuxKeyboard(Char('\n')) == LinuxKeyboard(Char('\r')) == Some(XKey("Return", 0))
  {
  }

  /** The keys the window layer itself relies on are in the tables: the
      command terminator and the flush character on both systems, and the
      restore hotkey on Linux. */
  lemma FramingKeysSupported(os: Os)
    ensures Supports(os, Char('\n')) && Supports(os, Char(' '))
    ensures LinuxKeyboard(Named("Super_L")) == Some(XKey("Super_L", 0))
    ensures LinuxKeyboard(Named("Down")) == Some(XKey("Down", 0))
  {
  }
}
