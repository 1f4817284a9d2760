/**
 * `first_word` in its two versions: the first enumerates characters, the
 * second enumerates bytes; both return the slice before the first space.
 */
module FirstWord {
  import opened RustStd
  import opened Utf8

  /** Index of the first `x` in `s`, or `|s|` when there is none. */
  function IndexOf<T(==)>(s: seq<T>, x: T): (k: nat)
    ensures k <= |s|
    ensures x !in s[..k]
    ensures k < |s| ==> s[k] == x
  {
    if s == [] then 0
    else if s[0] == x then 0
    else 1 + IndexOf(s[1..], x)
  }

  /** A position holding `x` with no `x` before it is the one `IndexOf` finds. */
  lemma {:induction false} IndexOfAt<T>(s: seq<T>, x: T, i: nat)
    requires i < |s| && s[i] == x
    requires forall j :: 0 <= j < i ==> s[j] != x
    ensures IndexOf(s, x) == i
  {
    if i > 0 {
      IndexOfAt(s[1..], x, i - 1);
    }
  }

  /**
   * What the character version returns: it locates the space by its
   * CHARACTER index `i` and then takes `&s[..i]`, which counts BYTES.
   */
  function ByChars(s: seq<char>): Outcome<seq<char>> {
    var i := IndexOf(s, ' ');
    if i < |s| then SliceTo(s, i) else Returned(s)
  }

  /** iterator.rs lines 1-8, as written. */
  method FirstWordByChars(s: seq<char>) returns (r: Outcome<seq<char>>)
    ensures r == ByChars(s)
  {
    for i := 0 to |s|
      invariant forall j :: 0 <= j < i ==> s[j] != ' '
    {
      if s[i] == ' ' {
        IndexOfAt(s, ' ', i);
        return SliceTo(s, i);
      }
    }
    return Returned(s);
  }

  /** The bytes of a character other than the space never include the byte 0x20. */
  lemma NoSpaceByte(c: char)
    requires c != ' '
    ensures SPACE !in EncodeChar(c)
  {
    var bs := EncodeChar(c);
    if c as int < 0x80 {
      assert bs == [c as int as u8];
    } else {
      assert forall j :: 0 <= j < |bs| ==> bs[j] >= 0x80;
    }
  }

  /** A string without a space encodes to bytes without 0x20. */
  lemma {:induction false} NoSpaceEncode(t: seq<char>)
    requires ' ' !in t
    ensures SPACE !in Encode(t)
  {
    if t != [] {
      NoSpaceByte(t[0]);
      NoSpaceEncode(t[1..]);
    }
  }

  /** After a word without a space, the first 0x20 byte is where a following space begins. */
  lemma SpaceByteAfterWord(word: seq<char>, tail: seq<char>)
    requires ' ' !in word
    ensures Len(word) <= Len(word + tail)
    ensures SPACE !in Encode(word + tail)[..Len(word)]
    ensures tail != [] && tail[0] == ' ' ==>
      Len(word) < Len(word + tail) && Encode(word + tail)[Len(word)] == SPACE
  {
    EncodeConcat(word, tail);
    NoSpaceEncode(word);
    assert Encode(word + tail)[..Len(word)] == Encode(word);
    if tail != [] && tail[0] == ' ' {
      assert Encode(tail) == EncodeChar(' ') + Encode(tail[1..]);
      assert Encode(word + tail)[Len(word)] == Encode(tail)[0];
    }
  }

  /**
   * iterator.rs lines 15-23. The first 0x20 byte always begins a character,
   * so the byte slice never panics and yields the word before the first space.
   */
  method FirstWordByBytes(s: seq<char>) returns (w: seq<char>)
    ensures w == s[..IndexOf(s, ' ')]
    ensures w <= s && ' ' !in w
    ensures |w| < |s| ==> s[|w|] == ' '
  {
    var bytes := Encode(s);
    var k := IndexOf(s, ' ');
    assert s[..k] + s[k..] == s;
    SpaceByteAfterWord(s[..k], s[k..]);
    var boundary := Len(s[..k]);
    assert s[..|s|] == s;
    forall j | 0 <= j < boundary
      ensures bytes[j] != SPACE
    {
      assert bytes[..boundary][j] == bytes[j];
    }
    for i := 0 to |bytes|
      invariant forall j :: 0 <= j < i ==> bytes[j] != SPACE
      invariant i <= boundary
    {
      if bytes[i] == SPACE {
        SliceToBoundary(s, k);
        return SliceTo(s, i).value;
      }
    }
    return s;
  }

  /** Whenever the character version returns, it returns a prefix of `s` with no space in it. */
  lemma ByCharsPrefix(s: seq<char>)
    ensures ByChars(s).Returned? ==> ByChars(s).value <= s && ' ' !in ByChars(s).value
  {
    var k := IndexOf(s, ' ');
    if k < |s| && ByChars(s).Returned? {
      var w := ByChars(s).value;
      LenCountsAscii(w);
      assert w == s[..|w|];
      assert s[..|w|] == s[..k][..|w|];
    }
  }

  /** With only ASCII before the first space, the character version returns the first word. */
  lemma ByCharsAscii(s: seq<char>)
    requires forall j :: 0 <= j < IndexOf(s, ' ') ==> s[j] as int < 0x80
    ensures ByChars(s) == Returned(s[..IndexOf(s, ' ')])
  {
    ByCharsCorrectIff(s);
  }

  /**
   * The character version returns the first word exactly when there is no
   * space or every character before the first space is ASCII (one byte).
   */
  lemma ByCharsCorrectIff(s: seq<char>)
    ensures var k := IndexOf(s, ' ');
      ByChars(s) == Returned(s[..k]) <==>
        (k == |s| || forall j :: 0 <= j < k ==> s[j] as int < 0x80)
  {
    var k := IndexOf(s, ' ');
    LenCountsAscii(s[..k]);
    if k < |s| {
      if forall j :: 0 <= j < k ==> s[j] as int < 0x80 {
        assert forall j :: 0 <= j < k ==> s[..k][j] == s[j];
        SliceToBoundary(s, k);
      }
      if ByChars(s) == Returned(s[..k]) {
        assert forall j :: 0 <= j < k ==> s[..k][j] == s[j];
      }
    } else {
      assert s[..k] == s;
    }
  }

  /** "café au lait": the space is character 4, but byte 4 falls inside 'é', so the slice panics. */
  lemma ByCharsPanicsOnCafe(s: seq<char>)
    requires s == "caf\U{e9} au lait"
    ensures ByChars(s) == Panicked
  {
    assert s[0] == 'c' && s[1] == 'a' && s[2] == 'f' && s[3] == '\U{e9}' && s[4] == ' ';
    IndexOfAt(s, ' ', 4);
    assert ByChars(s) == SliceTo(s, 4);
    var t := s[3..];
    assert t[0] == '\U{e9}' && CharLen(t[0]) == 2;
    assert SliceTo(t, 1) == Panicked;
    var u := s[2..];
    assert u[0] == 'f' && u[1..] == t;
    assert SliceTo(u, 2) == Panicked;
    var v := s[1..];
    assert v[0] == 'a' && v[1..] == u;
    assert SliceTo(v, 3) == Panicked;
  }

  /** "éé x": the space is character 2, byte 2 ends the first 'é', so half of the word comes back. */
  lemma ByCharsCutsWord(s: seq<char>)
    requires s == "\U{e9}\U{e9} x"
    ensures ByChars(s) == Returned("\U{e9}")
    ensures s[..IndexOf(s, ' ')] == "\U{e9}\U{e9}"
  {
    assert s[0] == '\U{e9}' && s[1] == '\U{e9}' && s[2] == ' ';
    IndexOfAt(s, ' ', 2);
    assert CharLen(s[0]) == 2;
    assert SliceTo(s[1..], 0) == Returned([]);
    assert [s[0]] + [] == "\U{e9}";
    assert SliceTo(s, 2) == Returned("\U{e9}");
    assert s[..2] == "\U{e9}\U{e9}";
  }

  /** An ASCII word followed by a space is what both versions return. */
  lemma AsciiWordThenSpace(w: seq<char>, rest: seq<char>)
    requires ' ' !in w
    requires forall j :: 0 <= j < |w| ==> w[j] as int < 0x80
    ensures ByChars(w + " " + rest) == Returned(w)
    ensures var s := w + " " + rest; s[..IndexOf(s, ' ')] == w
  {
    var s := w + " " + rest;
    IndexOfAt(s, ' ', |w|);
    assert s[..|w|] == w;
    ByCharsAscii(s);
  }

  /** `main`: the first word of "good morning" is "good", in both versions. */
  lemma GoodMorningWord(s: seq<char>)
    requires s == "good morning"
    ensures ByChars(s) == Returned("good") && s[..IndexOf(s, ' ')] == "good"
  {
    assert s == "good" + " " + "morning";
    AsciiWordThenSpace("good", "morning");
  }
}
