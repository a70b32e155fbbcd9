/** Reading a terminal line by line, `tty_read` in stage2/dev/tty.c: characters from the keyboard queue
    are edited into a line, and a finished line is handed out in pieces. */
module TerminalLines {
  import opened Bytes

  const LINE_SIZE := 256
  const BACKSPACE := 0x08
  const NEWLINE := 0x0A
  const RETURN := 0x0D
  const DELETE := 0x7F

  predicate Ends(c: Byte) { c == RETURN || c == NEWLINE }

  /** One editing key that does not end the line. */
  function Edit(line: seq<Byte>, c: Byte): seq<Byte> {
    if c == BACKSPACE || c == DELETE then if line == [] then line else line[..|line| - 1]
    else if 0x20 <= c < 0x7F && |line| < LINE_SIZE - 1 then line + [c]
    else line
  }

  predicate HasLine(keys: seq<Byte>) { exists i :: 0 <= i < |keys| && Ends(keys[i]) }

  /** The line that the keys produce, on top of what has been typed so far. */
  function Line(keys: seq<Byte>, sofar: seq<Byte>): seq<Byte>
    requires HasLine(keys)
    decreases |keys|
  {
    if Ends(keys[0]) then sofar + [NEWLINE] else Later(keys); Line(keys[1..], Edit(sofar, keys[0]))
  }

  /** The keys after the one that ends the first line. */
  function After(keys: seq<Byte>): (r: seq<Byte>)
    requires HasLine(keys)
    ensures |r| < |keys|
    decreases |keys|
  {
    if Ends(keys[0]) then keys[1..] else Later(keys); After(keys[1..])
  }

  lemma Later(keys: seq<Byte>)
    requires HasLine(keys) && !Ends(keys[0])
    ensures HasLine(keys[1..])
  {
    var i :| 0 <= i < |keys| && Ends(keys[i]);
    assert keys[1..][i - 1] == keys[i];
  }

  /** Everything that can ever be read from these keys: the edited lines one after the other. */
  function Text(keys: seq<Byte>): seq<Byte>
    decreases |keys|
  {
    if HasLine(keys) then Line(keys, []) + Text(After(keys)) else []
  }

  /** A line is never empty, ends in its only newline and fits the buffer. */
  lemma {:induction false} LineShape(keys: seq<Byte>, sofar: seq<Byte>)
    requires HasLine(keys) && |sofar| < LINE_SIZE && forall k :: 0 <= k < |sofar| ==> 0x20 <= sofar[k] < 0x7F
    ensures var l := Line(keys, sofar);
      && 0 < |l| <= LINE_SIZE && l[|l| - 1] == NEWLINE
      && forall k :: 0 <= k < |l| - 1 ==> 0x20 <= l[k] < 0x7F
    decreases |keys|
  {
    if !Ends(keys[0]) {
      Later(keys);
      LineShape(keys[1..], Edit(sofar, keys[0]));
    }
  }

  predicate Printable(c: Byte) { 0x20 <= c < 0x7F }

  /** A backspace or delete takes back the printable key before it if and only if the buffer had room for
      that key; 255 characters fit. */
  lemma BackspaceUndoes(line: seq<Byte>, c: Byte, b: Byte)
    requires Printable(c) && b in {0x08, 0x7F} && |line| <= 255
    ensures Edit(Edit(line, c), b) == line <==> |line| < 255
    ensures |line| == 255 ==> Edit(Edit(line, c), b) == line[..254]
  {
  }

  /** So a line may be typed with mistakes: what was taken back at once leaves no trace. */
  lemma MistakeLeavesNoTrace(keys: seq<Byte>, sofar: seq<Byte>, c: Byte, b: Byte)
    requires HasLine(keys) && Printable(c) && b in {0x08, 0x7F} && |sofar| < 255
    ensures HasLine([c, b] + keys) && Line([c, b] + keys, sofar) == Line(keys, sofar)
    ensures After([c, b] + keys) == After(keys)
  {
    var all := [c, b] + keys;
    var i :| 0 <= i < |keys| && Ends(keys[i]);
    assert Ends(all[i + 2]);
    assert all[1..] == [b] + keys && all[1..][1..] == keys;
    assert HasLine([b] + keys) by { assert Ends(([b] + keys)[i + 1]); }
    BackspaceUndoes(sofar, c, b);
    assert Line(all, sofar) == Line([b] + keys, Edit(sofar, c)) == Line(keys, Edit(Edit(sofar, c), b));
    assert After(all) == After([b] + keys) == After(keys);
  }

  /** Printable keys give the line they spell, cut to 255 characters, and either of the two end keys ends
      it; nothing after that key is used. */
  lemma {:induction false} PlainTyping(text: seq<Byte>, end: Byte, rest: seq<Byte>, sofar: seq<Byte>)
    requires (forall k :: 0 <= k < |text| ==> Printable(text[k])) && end in {0x0A, 0x0D} && |sofar| <= 255
    ensures HasLine(text + [end] + rest)
    ensures Line(text + [end] + rest, sofar) == Take(sofar + text, 255) + [0x0A]
    ensures After(text + [end] + rest) == rest
    decreases |text|
  {
    var all := text + [end] + rest;
    assert Ends(all[|text|]);
    if text == [] {
      assert all[1..] == rest && sofar + text == sofar;
    } else {
      assert all[1..] == text[1..] + [end] + rest && !Ends(all[0]);
      var now := Edit(sofar, text[0]);
      PlainTyping(text[1..], end, rest, now);
      assert Take(now + text[1..], 255) == Take(sofar + text, 255) by {
        assert |sofar| < 255 ==> now + text[1..] == sofar + text;
        assert |sofar| == 255 ==> Take(sofar + text[1..], 255) == sofar == Take(sofar + text, 255);
      }
    }
  }

  /** All other keys are ignored. */
  lemma OthersIgnored(line: seq<Byte>, c: Byte)
    ensures Edit(line, c) == line <==>
      !(c in {0x08, 0x7F} && line != []) && !(Printable(c) && |line| < 255)
  {
  }

  class LineBuffer {
    var line: seq<Byte>
    var fill: nat
    var pos: nat
    /** The keys that the keyboard queue delivers from now on. */
    var keys: seq<Byte>

    ghost predicate Valid()
      reads this
    {
      |line| == LINE_SIZE && pos <= fill <= LINE_SIZE
    }

    constructor (keys: seq<Byte>)
      ensures Valid() && Ahead() == Text(keys)
    {
      line, fill, pos, this.keys := Zeros(LINE_SIZE), 0, 0, keys;
    }

    /** What reads will deliver: the rest of the current line and then the text of the keys to come. */
    ghost function Ahead(): seq<Byte>
      requires Valid()
      reads this
    {
      line[pos..fill] + Text(keys)
    }

    /** The editing loop, until a newline completes the line. */
    method ReadLine()
      requires Valid() && pos == fill && HasLine(keys)
      modifies this
      ensures Valid() && pos == 0 && line[..fill] == Line(old(keys), []) && keys == After(old(keys))
      ensures fill > 0
    {
      fill, pos := 0, 0;
      ghost var all := keys;
      assert line[..fill] == [];
      while !Ends(keys[0])
        invariant |line| == LINE_SIZE && pos == 0 && fill < LINE_SIZE && HasLine(keys)
        invariant Line(keys, line[..fill]) == Line(all, []) && After(keys) == After(all)
        decreases |keys|
      {
        Later(keys);
        EditKey(keys[0]);
        keys := keys[1..];
      }
      keys := keys[1..];
      if fill < LINE_SIZE {
        line := line[fill := NEWLINE];
        fill := fill + 1;
      }
    }

    /** One key that does not end the line. */
    method EditKey(c: Byte)
      requires |line| == LINE_SIZE && fill < LINE_SIZE && !Ends(c)
      modifies this`line, this`fill
      ensures |line| == LINE_SIZE && fill < LINE_SIZE && line[..fill] == Edit(old(line[..fill]), c)
    {
      if c == BACKSPACE || c == DELETE {
        if fill > 0 {
          assert line[..fill][..fill - 1] == line[..fill - 1];
          fill := fill - 1;
        }
      } else if 0x20 <= c < 0x7F {
        if fill < LINE_SIZE - 1 {
          line := line[fill := c];
          fill := fill + 1;
        }
      }
    }

    /** `tty_read`: at most one recursive call, as the measure shows. It waits for a whole line only
        when none is buffered, and what it delivers are the next bytes of the edited lines. */
    method Read(size: nat) returns (out: seq<Byte>)
      requires Valid() && (pos == fill ==> HasLine(keys))
      modifies this
      ensures Valid() && old(Ahead()) == out + Ahead()
      ensures |out| == Min(size, if old(pos < fill) then old(fill - pos) else |Line(old(keys), [])|)
      decreases if pos < fill then 0 else 1
    {
      if pos < fill {
        var take := size;
        if fill - pos < take { take := fill - pos; }
        out := Copy(take);
        return;
      }
      ghost var ks := keys;
      assert line[pos..fill] == [];
      ReadLine();
      assert line[pos..fill] == line[..fill];
      out := Read(size);
    }

    method Copy(take: nat) returns (out: seq<Byte>)
      requires Valid() && take <= fill - pos
      modifies this`pos
      ensures Valid() && pos == old(pos) + take && out == line[old(pos)..pos] && old(Ahead()) == out + Ahead()
    {
      ghost var from := pos;
      out := [];
      while |out| < take
        invariant |out| <= take && pos == from + |out| && out == line[from..pos]
      {
        out := out + [line[pos]];
        pos := pos + 1;
      }
      assert line[from..fill] == line[from..pos] + line[pos..fill];
    }
  }
}
