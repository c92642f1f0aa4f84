/** How each keyboard table is filled: a dictionary literal, then loops
    that add one entry per named key or per character of a run. */
module Tables {
  import opened Common
  import opened Keyboard

  /** The entry of a dictionary for `s`, if it has one. */
  function Lookup<E>(table: map<Symbol, E>, s: Symbol): Option<E> {
    if s in table then Some(table[s]) else None
  }

  /** A dictionary holding exactly the Linux literal entries. */
  ghost predicate IsLinuxLiteral(table: map<Symbol, XKey>) {
    forall s :: Lookup(table, s) == (if s.Char? then LinuxPunctuation(s.c) else None)
  }

  /** A dictionary holding exactly the Windows literal entries. */
  ghost predicate IsWindowsLiteral(table: map<Symbol, VKey>) {
    forall s :: Lookup(table, s) == (if s.Char? then WindowsPunctuation(s.c) else WindowsNamedKey(s.name))
  }

  /** The character runs the loops walk over. */
  const LinuxUnshifted: string := "1234567890abcdefghijklmnopqrstuvwxyz"
  const Digits: string := "0123456789"
  const LowerLetters: string := "abcdefghijklmnopqrstuvwxyz"
  const UpperLetters: string := "ABCDEFGHIJKLMNOPQRSTUVWXYZ"

  lemma LinuxUnshiftedAre(c: char)
    ensures c in LinuxUnshifted <==> IsDigit(c) || IsLower(c)
  {
    var digits := "1234567890";
    assert LinuxUnshifted == digits + LowerLetters;
    assert c in digits <==> IsDigit(c);
    LowerLettersAre(c);
  }

  lemma DigitsAre(c: char)
    ensures c in Digits <==> IsDigit(c)
  {
  }

  lemma LowerLettersAre(c: char)
    ensures c in LowerLetters <==> IsLower(c)
  {
  }

  lemma UpperLettersAre(c: char)
    ensures c in UpperLetters <==> IsUpper(c)
  {
  }

  /** A loop `for c in chars: table[c] = entry(c)`: every character of the
      run gets its entry, whatever the dictionary held for it; every other
      key keeps its entry. */
  method AddCharacters<E>(table: map<Symbol, E>, chars: string, entry: char -> E) returns (t: map<Symbol, E>)
    ensures forall s :: Lookup(t, s) == if s.Char? && s.c in chars then Some(entry(s.c)) else Lookup(table, s)
  {
    t := table;
    for i := 0 to |chars|
      invariant forall s :: Lookup(t, s) == if s.Char? && s.c in chars[..i] then Some(entry(s.c)) else Lookup(table, s)
    {
      TakeOneMore(chars, i);
      t := t[Char(chars[i]) := entry(chars[i])];
    }
    assert chars[..|chars|] == chars;
  }

  /** A loop `for n in names: table[n] = (n, 0)` over named keys. */
  method AddNames(table: map<Symbol, XKey>, names: seq<KeyName>) returns (t: map<Symbol, XKey>)
    ensures forall s :: Lookup(t, s) == if s.Named? && s.name in names then Some(XKey(s.name, 0)) else Lookup(table, s)
  {
    t := table;
    for i := 0 to |names|
      invariant forall s :: Lookup(t, s) == if s.Named? && s.name in names[..i] then Some(XKey(s.name, 0)) else Lookup(table, s)
    {
      TakeOneMore(names, i);
      t := t[Named(names[i]) := XKey(names[i], 0)];
    }
    assert names[..|names|] == names;
  }

  /** The Linux dictionary: the literal, then the named keys, then digits
      and lower-case letters unshifted, then upper-case letters shifted.
      It is the table `LinuxKeyboard`. */
  method BuildLinuxKeyboard(literal: map<Symbol, XKey>) returns (t: map<Symbol, XKey>)
    requires IsLinuxLiteral(literal)
    ensures forall s :: Lookup(t, s) == LinuxKeyboard(s)
  {
    t := AddNames(literal, LinuxKeyNames);
    t := AddCharacters(t, LinuxUnshifted, c => XKey([c], 0));
    t := AddCharacters(t, UpperLetters, c => XKey([c], 1));
    forall s ensures Lookup(t, s) == LinuxKeyboard(s) {
      if s.Char? {
        LinuxUnshiftedAre(s.c);
        UpperLettersAre(s.c);
      }
    }
  }

  /** The Windows dictionary: the literal, then digits by their own code,
      lower-case letters by the code of their upper-case letter, and
      upper-case letters by their own code, shifted. It is the table
      `WindowsKeyboard`. */
  method BuildWindowsKeyboard(literal: map<Symbol, VKey>) returns (t: map<Symbol, VKey>)
    requires IsWindowsLiteral(literal)
    ensures forall s :: Lookup(t, s) == WindowsKeyboard(s)
  {
    t := AddCharacters(literal, Digits, c => VKey(c as int, 0));
    t := AddCharacters(t, LowerLetters, c => VKey(c as int - 32, 0));
    t := AddCharacters(t, UpperLetters, c => VKey(c as int, 1));
    forall s ensures Lookup(t, s) == WindowsKeyboard(s) {
      if s.Char? {
        DigitsAre(s.c);
        LowerLettersAre(s.c);
        UpperLettersAre(s.c);
      }
    }
  }
}
