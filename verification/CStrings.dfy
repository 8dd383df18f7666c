/** String literals: the escape printer of the code generator (src/maps-compiler/tensorc/codegen_c.py) and the string
    reader of the lexer (src/maps-compiler/tensorc/lexer.py), which understands the same four escapes as C. */
module CStrings {
  import opened Options

  function EscapeChar(ch: char): string
  {
    if ch == '\\' then "\\\\" else if ch == '"' then "\\\"" else if ch == '\n' then "\\n" else if ch == '\t' then "\\t" else [ch]
  }

  function Escape(text: string): string
  {
    if text == "" then "" else EscapeChar(text[0]) + Escape(text[1..])
  }

  /** The character an escape stands for. */
  function EscapedChar(esc: char): Option<char>
  {
    if esc == 'n' then Some('\n') else if esc == 't' then Some('\t')
    else if esc == '\\' then Some('\\') else if esc == '"' then Some('"') else None
  }

  /** The text a literal stands for; `None` if it holds a bare quote, a bad escape or an unfinished one. */
  function Unescape(literal: string): Option<string>
  {
    if literal == "" then Some("")
    else if literal[0] == '"' then None
    else if literal[0] != '\\' then
      (match Unescape(literal[1..]) case Some(rest) => Some([literal[0]] + rest) case None => None)
    else if |literal| == 1 || EscapedChar(literal[1]).None? then None
    else
      (match Unescape(literal[2..]) case Some(rest) => Some([EscapedChar(literal[1]).value] + rest) case None => None)
  }

  function BeforeNul(text: string): string
  {
    if text == "" || text[0] == '\0' then "" else [text[0]] + BeforeNul(text[1..])
  }

  /** The runtime writes the whole text exactly when it holds no NUL. */
  lemma {:induction false} BeforeNulOfPlainText(text: string)
    ensures |BeforeNul(text)| <= |text|
    ensures BeforeNul(text) == text <==> '\0' !in text
  {
    if text != "" {
      BeforeNulOfPlainText(text[1..]);
      assert text == [text[0]] + text[1..];
    }
  }

  lemma {:induction false} UnescapeEscape(text: string)
    ensures Unescape(Escape(text)) == Some(text)
  {
    if text != "" {
      UnescapeEscape(text[1..]);
      var head, rest := EscapeChar(text[0]), Escape(text[1..]);
      assert (head + rest)[|head|..] == rest;
      assert text == [text[0]] + text[1..];
    }
  }

  /** The escape printer. */
  method EscapeCString(text: string) returns (out: string)
    ensures out == Escape(text)
  {
    out := "";
    for i := 0 to |text|
      invariant out + Escape(text[i..]) == Escape(text)
    {
      var ch, piece := text[i], "";
      if ch == '\\' { piece := "\\\\"; }
      else if ch == '"' { piece := "\\\""; }
      else if ch == '\n' { piece := "\\n"; }
      else if ch == '\t' { piece := "\\t"; }
      else { piece := [ch]; }
      EscapeFirst(text, i);
      Associative(out, piece, Escape(text[i + 1..]));
      out := out + piece;
    }
  }

  lemma EscapeFirst(text: string, i: nat)
    requires i < |text|
    ensures Escape(text[i..]) == EscapeChar(text[i]) + Escape(text[i + 1..])
  {
    assert text[i..][1..] == text[i + 1..];
  }

  lemma Associative(x: string, y: string, z: string)
    ensures x + (y + z) == (x + y) + z
  {
  }

  /** The source ends within an escape: a complete literal so far, then a last backslash. */
  predicate EndsInEscape(source: string, start: nat)
  {
    start < |source| && source[|source| - 1] == '\\' && Unescape(source[start..|source| - 1]).Some?
  }

  /** The lexer's reader, from just after the opening quote at `start`: on success the text and the index after the
      closing quote, which is the first quote not escaped.  A compile error is a missing value; the reader indexes past
      the source, which is no compile error, exactly when the source ends within an escape. */
  method ReadString(source: string, start: nat) returns (value: Option<string>, index: nat, overrun: bool)
    requires start <= |source|
    ensures overrun <==> EndsInEscape(source, start)
    ensures overrun ==> value.None?
    ensures start <= index <= |source|
    ensures value.Some? <==>
              exists end :: start <= end < |source| && source[end] == '"' && Unescape(source[start..end]).Some?
    ensures value.Some? ==> index > start && source[index - 1] == '"' && Unescape(source[start..index - 1]) == value
  {
    hide Unescape;
    index, overrun := start, false;
    var text := "";
    UnescapeEmpty(source, start);
    while index < |source| && source[index] != '"'
      invariant start <= index <= |source|
      invariant Unescape(source[start..index]) == Some(text)
      invariant forall end :: start <= end < index && source[end] == '"' ==> Unescape(source[start..end]).None?
    {
      var ch, at := source[index], index;
      index := index + 1;
      if ch != '\\' {
        PlainCharRead(source, start, at);
        text := text + [ch];
      } else {
        if index >= |source| { return None, index, true; }
        if EscapedChar(source[index]).None? {
          NoEndAfter(source, start, at);
          return None, index, false;
        }
        var esc := source[index];
        index := index + 1;
        EscapeRead(source, start, at);
        text := text + [EscapedChar(esc).value];
      }
    }
    NotInEscape(source, start, index);
    if index >= |source| { return None, index, false; }
    index := index + 1;
    value := Some(text);
  }

  /** A complete prefix that ends with the source or before a quote leaves no escape open. */
  lemma NotInEscape(source: string, start: nat, end: nat)
    requires start <= end <= |source| && Unescape(source[start..end]).Some? && (end < |source| ==> source[end] == '"')
    ensures !EndsInEscape(source, start)
  {
    if start < |source| && source[|source| - 1] == '\\' {
      var last := |source| - 1;
      if end < |source| {
        assert end < last;
        SliceExtends(source, start, end, last);
        assert source[end..last][0] == '"';
        UnescapeAppend(source[start..end], source[end..last]);
      } else if Unescape(source[start..last]).Some? {
        SliceExtends(source, start, last, end);
        assert source[last..end] == ['\\'];
        UnescapeAppend(source[start..last], ['\\']);
      }
    }
  }

  lemma UnescapeEmpty(source: string, start: nat)
    requires start <= |source|
    ensures Unescape(source[start..start]) == Some("")
  {
  }

  lemma SliceExtends(s: string, start: nat, mid: nat, end: nat)
    requires start <= mid <= end <= |s|
    ensures s[start..end] == s[start..mid] + s[mid..end]
  {
  }

  lemma PlainCharRead(source: string, start: nat, at: nat)
    requires start <= at < |source| && source[at] != '\\' && source[at] != '"' && Unescape(source[start..at]).Some?
    ensures Unescape(source[start..at + 1]) == Some(Unescape(source[start..at]).value + [source[at]])
  {
    SliceExtends(source, start, at, at + 1);
    assert source[at..at + 1] == [source[at]];
    assert [source[at]][1..] == "" && [source[at]] + "" == [source[at]];
    assert Unescape([source[at]]) == Some([source[at]]);
    UnescapeAppend(source[start..at], [source[at]]);
  }

  lemma EscapeRead(source: string, start: nat, at: nat)
    requires start <= at && at + 1 < |source| && source[at] == '\\' && EscapedChar(source[at + 1]).Some?
    requires Unescape(source[start..at]).Some?
    ensures Unescape(source[start..at + 1]).None?
    ensures Unescape(source[start..at + 2]) == Some(Unescape(source[start..at]).value + [EscapedChar(source[at + 1]).value])
  {
    var esc := source[at + 1];
    SliceExtends(source, start, at, at + 1);
    SliceExtends(source, start, at, at + 2);
    assert source[at..at + 1] == ['\\'] && source[at..at + 2] == ['\\', esc];
    assert ['\\', esc][2..] == "";
    assert [EscapedChar(esc).value] + "" == [EscapedChar(esc).value];
    assert Unescape(['\\', esc]) == Some([EscapedChar(esc).value]);
    UnescapeAppend(source[start..at], ['\\']);
    UnescapeAppend(source[start..at], ['\\', esc]);
  }

  /** Reading continues after a complete prefix. */
  lemma {:induction false} UnescapeAppend(prefix: string, more: string)
    requires Unescape(prefix).Some?
    ensures Unescape(prefix + more) ==
            match Unescape(more) case Some(text) => Some(Unescape(prefix).value + text) case None => None
  {
    if prefix == "" {
      assert prefix + more == more;
      if Unescape(more).Some? { assert "" + Unescape(more).value == Unescape(more).value; }
    } else {
      var n := if prefix[0] == '\\' then 2 else 1;
      var whole, ch := prefix + more, if prefix[0] == '\\' then EscapedChar(prefix[1]).value else prefix[0];
      UnescapeAppend(prefix[n..], more);
      assert whole[n..] == prefix[n..] + more;
      assert Unescape(prefix) == Some([ch] + Unescape(prefix[n..]).value);
      if Unescape(more).Some? {
        assert Unescape(whole) == Some([ch] + Unescape(whole[n..]).value);
        Associative([ch], Unescape(prefix[n..]).value, Unescape(more).value);
      }
    }
  }

  /** After a complete prefix, a bad escape spoils every longer literal. */
  lemma NoEndAfter(source: string, start: nat, at: nat)
    requires start <= at < |source| && Unescape(source[start..at]).Some? && source[at] == '\\'
    requires at + 1 < |source| ==> EscapedChar(source[at + 1]).None?
    ensures forall end :: at < end < |source| ==> Unescape(source[start..end]).None?
  {
    forall end | at < end < |source| ensures Unescape(source[start..end]).None? {
      UnescapeAppend(source[start..at], source[at..end]);
      assert source[start..end] == source[start..at] + source[at..end];
    }
  }

  /** A complete literal ends before the first quote outside an escape, so a longer one cannot be complete. */
  lemma {:induction false} CompletePrefixIsUnique(literal: string, end: nat)
    requires end < |literal| && literal[end] == '"' && Unescape(literal[..end]).Some?
    ensures Unescape(literal).None?
  {
    UnescapeAppend(literal[..end], literal[end..]);
    assert literal == literal[..end] + literal[end..];
  }

  /** The printed literal has exactly one complete reading: the original text, up to its own closing quote. */
  lemma PrintedLiteralEnds(text: string, rest: string, end: nat)
    requires end <= |Escape(text) + "\"" + rest|
    ensures var source := Escape(text) + "\"" + rest;
            && Unescape(source[..|Escape(text)|]) == Some(text)
            && (end < |source| && source[end] == '"' && Unescape(source[..end]).Some? <==> end == |Escape(text)|)
  {
    var source := Escape(text) + "\"" + rest;
    var close := |Escape(text)|;
    assert source[..close] == Escape(text) && source[close] == '"';
    UnescapeEscape(text);
    if end < |source| && source[end] == '"' && Unescape(source[..end]).Some? && end != close {
      if end < close {
        assert source[..close][..end] == source[..end];
        CompletePrefixIsUnique(source[..close], end);
      } else {
        assert source[..end][..close] == source[..close];
        CompletePrefixIsUnique(source[..end], close);
      }
      assert false;
    }
  }

  /** Printing a text as a literal and reading it back gives the text, whatever follows the literal. */
  method PrintAndRead(text: string, rest: string) returns (value: Option<string>, index: nat)
    ensures value == Some(text) && index == |Escape(text)| + 1
  {
    var escaped := EscapeCString(text);
    var source := escaped + "\"" + rest;
    PrintedLiteralEnds(text, rest, |escaped|);
    hide Unescape;
    var overrun;
    value, index, overrun := ReadString(source, 0);
    assert source[0..|escaped|] == source[..|escaped|];
    assert value.Some?;
    assert source[0..index - 1] == source[..index - 1];
    PrintedLiteralEnds(text, rest, index - 1);
  }

  /** The escapes, letter by letter, for the printer and for the reader. */
  lemma EscapesByLetter(ch: char)
    ensures EscapeChar('\n') == ['\\', 'n'] && EscapeChar('\t') == ['\\', 't']
    ensures EscapeChar('\\') == ['\\', '\\'] && EscapeChar('"') == ['\\', '"']
    ensures ch !in ['\n', '\t', '\\', '"'] ==> EscapeChar(ch) == [ch]
    ensures EscapedChar('n') == Some('\n') && EscapedChar('t') == Some('\t')
    ensures EscapedChar('\\') == Some('\\') && EscapedChar('"') == Some('"')
    ensures ch !in ['n', 't', '\\', '"'] ==> EscapedChar(ch) == None
  {
  }
}
