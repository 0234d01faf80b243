/** A reader of characters that can take back the last one it read, and no more. */
module Lexers {

  class Lexer {
    const input: string
    var pos: nat
    /** Whether the last operation was a successful Read; otherwise taking back panics. */
    var canUnread: bool

    ghost predicate Valid()
      reads this
    {
      pos <= |input| && (canUnread ==> pos > 0)
    }

    /** What is still to be read. */
    ghost function Rest(): string
      requires Valid()
      reads this
    {
      input[pos..]
    }

    constructor (str: string)
      ensures Valid() && input == str && pos == 0 && Rest() == str && !canUnread
    {
      input, pos, canUnread := str, 0, false;
      new;
      assert input[0..] == str;
    }

    method Read() returns (r: char, ok: bool)
      requires Valid()
      modifies this
      ensures Valid() && ok == (old(Rest()) != []) && canUnread == ok
      ensures if ok then r == old(Rest())[0] && pos == old(pos) + 1 && Rest() == old(Rest())[1..]
        else pos == old(pos) && Rest() == old(Rest())
    {
      if pos == |input| {
        canUnread := false;
        return '\0', false;
      }
      r, ok := input[pos], true;
      pos, canUnread := pos + 1, true;
    }

    /** Panics unless it directly follows a successful Read: callers must show that it does. */
    method Backup()
      requires Valid() && canUnread
      modifies this
      ensures Valid() && !canUnread && pos == old(pos) - 1 && Rest() == [input[old(pos) - 1]] + old(Rest())
    {
      pos, canUnread := pos - 1, false;
    }

    method ReadIf(fn: char -> bool) returns (r: char, ok: bool)
      requires Valid()
      modifies this
      ensures Valid() && ok == (old(Rest()) != [] && fn(old(Rest())[0])) && canUnread == ok
      ensures if ok then r == old(Rest())[0] && pos == old(pos) + 1 && Rest() == old(Rest())[1..]
        else pos == old(pos) && Rest() == old(Rest())
    {
      r, ok := Read();
      if !ok {
        return;
      }
      if !fn(r) {
        Backup();
        return '\0', false;
      }
    }

    method ReadChar(r1: char) returns (ok: bool)
      requires Valid()
      modifies this
      ensures Valid() && ok == (old(Rest()) != [] && old(Rest())[0] == r1) && canUnread == ok
      ensures if ok then pos == old(pos) + 1 && Rest() == old(Rest())[1..] else pos == old(pos) && Rest() == old(Rest())
    {
      var _, found := ReadIf(r2 => r1 == r2);
      ok := found;
    }
  }
}
