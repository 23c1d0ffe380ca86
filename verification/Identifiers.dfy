/** Identifiers derived from the client ID, node serials and IDs (src/hassdiscovery.rs). */
module Identifiers {
  import opened Base
  import opened Values
  import opened Topics

  const FALLBACK: string := "velux2mqtt"

  predicate Alphanumeric(c: char) {
    'a' <= c <= 'z' || 'A' <= c <= 'Z' || '0' <= c <= '9'
  }

  function Lower(c: char): char {
    if 'A' <= c <= 'Z' then c + 32 as char else c
  }

  predicate LowerAlphanumeric(c: char) {
    'a' <= c <= 'z' || '0' <= c <= '9'
  }

  // ----- The specification: words and their join -----

  /** One more character: a letter or digit extends the last word if it is glued to it, or else
      begins a word; anything else only ends the word before it. */
  function Extend(words: seq<string>, glued: bool, c: char): (r: seq<string>)
    requires glued && Alphanumeric(c) ==> words != []
    ensures Alphanumeric(c) ==> r != []
  {
    if !Alphanumeric(c) then words
    else if glued then words[..|words| - 1] + [words[|words| - 1] + [Lower(c)]]
    else words + [[Lower(c)]]
  }

  predicate EndsInWord(s: string) {
    s != [] && Alphanumeric(s[|s| - 1])
  }

  /** The lowercased maximal runs of letters and digits of a text. */
  function Words(s: string): (words: seq<string>)
    ensures EndsInWord(s) ==> words != []
  {
    if s == [] then [] else Extend(Words(s[..|s| - 1]), EndsInWord(s[..|s| - 1]), s[|s| - 1])
  }

  lemma WordsSnoc(s: string, c: char)
    ensures Words(s + [c]) == Extend(Words(s), EndsInWord(s), c)
  {
    assert (s + [c])[..|s|] == s;
  }

  lemma ExtendConcat(u: seq<string>, w: seq<string>, glued: bool, c: char)
    requires glued && Alphanumeric(c) ==> w != []
    ensures Extend(u + w, glued, c) == u + Extend(w, glued, c)
  {
    if glued && Alphanumeric(c) {
      assert (u + w)[..|u| + |w| - 1] == u + w[..|w| - 1];
    }
  }

  function Joined(words: seq<string>): string {
    if words == [] then ""
    else if |words| == 1 then words[0]
    else Joined(words[..|words| - 1]) + "_" + words[|words| - 1]
  }

  function Identifier(s: string): string {
    if Words(s) == [] then FALLBACK else Joined(Words(s))
  }

  predicate IsWord(w: string) {
    w != "" && forall i :: 0 <= i < |w| ==> LowerAlphanumeric(w[i])
  }

  ghost predicate AreWords(words: seq<string>) {
    forall i :: 0 <= i < |words| ==> IsWord(words[i])
  }

  lemma ExtendKeepsWords(words: seq<string>, glued: bool, c: char)
    requires AreWords(words) && (glued && Alphanumeric(c) ==> words != [])
    ensures AreWords(Extend(words, glued, c))
  {
  }

  lemma {:induction false} WordsAreWords(s: string)
    ensures AreWords(Words(s))
  {
    hide Extend;
    if s != [] {
      WordsAreWords(s[..|s| - 1]);
      ExtendKeepsWords(Words(s[..|s| - 1]), EndsInWord(s[..|s| - 1]), s[|s| - 1]);
    }
  }

  /** A separator splits a text: the words before it, then the words after it. */
  lemma {:induction false} WordsSplit(a: string, separator: char, b: string)
    requires !Alphanumeric(separator)
    ensures Words(a + [separator] + b) == Words(a) + Words(b)
    decreases |b|
  {
    hide Words;
    if b == [] {
      WordsSnoc(a, separator);
      NoWords();
      assert a + [separator] + b == a + [separator];
    } else {
      var n := |b| - 1;
      var before := a + [separator] + b[..n];
      WordsSplit(a, separator, b[..n]);
      WordsSnoc(before, b[n]);
      WordsSnoc(b[..n], b[n]);
      assert b == b[..n] + [b[n]] && a + [separator] + b == before + [b[n]];
      assert EndsInWord(before) <==> EndsInWord(b[..n]);
      ExtendConcat(Words(a), Words(b[..n]), EndsInWord(b[..n]), b[n]);
    }
  }

  lemma NoWords()
    ensures Words([]) == []
  {
  }

  /** A text of letters and digits alone is one word, lowercased. */
  lemma {:induction false} WordsOfRun(run: string)
    requires run != [] && forall i :: 0 <= i < |run| ==> Alphanumeric(run[i])
    ensures Words(run) == [Lowered(run)]
    decreases |run|
  {
    hide Words;
    var n := |run| - 1;
    WordsSnoc(run[..n], run[n]);
    assert run == run[..n] + [run[n]];
    if n > 0 {
      WordsOfRun(run[..n]);
    } else {
      NoWords();
      assert run[..n] == [] && Lowered(run) == [Lower(run[0])];
    }
  }

  function Lowered(s: string): (r: string)
    ensures |r| == |s| && forall i :: 0 <= i < |s| ==> r[i] == Lower(s[i])
  {
    if s == [] then [] else Lowered(s[..|s| - 1]) + [Lower(s[|s| - 1])]
  }

  lemma {:induction false} WordsOfJoined(words: seq<string>)
    requires AreWords(words)
    ensures Words(Joined(words)) == words
    decreases |words|
  {
    if words != [] {
      var n := |words| - 1;
      var last := words[n];
      WordsOfRun(last);
      assert Lowered(last) == last;
      assert words == words[..n] + [last];
      if n > 0 {
        WordsOfJoined(words[..n]);
        WordsSplit(Joined(words[..n]), '_', last);
      }
    }
  }

  lemma FallbackIsWord()
    ensures IsWord(FALLBACK)
  {
  }

  /** Normalising twice is normalising once. */
  lemma IdentifierIsIdempotent(s: string)
    ensures Identifier(Identifier(s)) == Identifier(s)
  {
    WordsAreWords(s);
    FallbackIsWord();
    WordsOfJoined(if Words(s) == [] then [FALLBACK] else Words(s));
  }

  /** Only letters, digits and single inner underscores. */
  predicate Canonical(s: string) {
    && s != ""
    && s[0] != '_' && s[|s| - 1] != '_'
    && (forall i :: 0 <= i < |s| ==> LowerAlphanumeric(s[i]) || s[i] == '_')
    && (forall i :: 0 < i < |s| ==> s[i - 1] != '_' || s[i] != '_')
  }

  lemma {:induction false} JoinedIsCanonical(words: seq<string>)
    requires words != [] && AreWords(words)
    ensures Canonical(Joined(words))
    decreases |words|
  {
    var n := |words| - 1;
    if n > 0 {
      JoinedIsCanonical(words[..n]);
    }
  }

  /** The last separator of a text, or nothing before its beginning. */
  function LastSeparator(s: string): (k: int)
    ensures -1 <= k < |s|
    ensures k >= 0 ==> s[k] == '_'
    ensures forall i :: k < i < |s| ==> s[i] != '_'
  {
    if s == [] then -1 else if s[|s| - 1] == '_' then |s| - 1 else LastSeparator(s[..|s| - 1])
  }

  lemma CanonicalBeforeSeparator(s: string, k: nat)
    requires Canonical(s) && k < |s| && s[k] == '_'
    ensures Canonical(s[..k])
  {
    assert s[k - 1] != '_';
  }

  lemma LastWord(s: string, k: int)
    requires Canonical(s) && k == LastSeparator(s)
    ensures IsWord(s[k + 1..])
  {
    hide LastSeparator;
  }

  lemma WordIsItsOnlyWord(w: string)
    requires IsWord(w)
    ensures Words(w) == [w]
  {
    hide Words;
    WordsOfRun(w);
    assert Lowered(w) == w;
  }

  lemma SplitAt(s: string, k: nat)
    requires k < |s|
    ensures s == s[..k] + [s[k]] + s[k + 1..]
  {
  }

  lemma {:induction false} CanonicalIsJoined(s: string)
    requires Canonical(s)
    ensures Words(s) != [] && Joined(Words(s)) == s
    decreases |s|
  {
    var k := LastSeparator(s);
    var last := s[k + 1..];
    LastWord(s, k);
    hide *;
    WordIsItsOnlyWord(last);
    JoinedGrows([], last);
    if k < 0 {
      assert last == s && [] + [last] == [last];
    } else {
      CanonicalBeforeSeparator(s, k);
      CanonicalIsJoined(s[..k]);
      SplitAt(s, k);
      SeparatorIsNoLetter();
      WordsSplit(s[..k], '_', last);
      JoinedGrows(Words(s[..k]), last);
    }
  }

  lemma SeparatorIsNoLetter()
    ensures !Alphanumeric('_')
  {
  }

  /** Every identifier is canonical, and the canonical texts are exactly those it leaves alone. */
  lemma IdentifierIsCanonical(s: string)
    ensures Canonical(Identifier(s))
    ensures Identifier(s) == s <==> Canonical(s)
  {
    WordsAreWords(s);
    if Words(s) != [] {
      JoinedIsCanonical(Words(s));
    }
    if Canonical(s) {
      CanonicalIsJoined(s);
    }
  }

  // ----- The loop -----

  /** What the loop has built from a prefix: its words joined, and a separator if one is due. */
  function Scanned(s: string): string {
    Joined(Words(s)) + if Words(s) != [] && !EndsInWord(s) then "_" else ""
  }

  lemma JoinedExtends(words: seq<string>, c: char)
    requires words != []
    ensures Joined(words[..|words| - 1] + [words[|words| - 1] + [c]]) == Joined(words) + [c]
  {
    var n := |words| - 1;
    var after := words[..n] + [words[n] + [c]];
    assert after[..n] == words[..n];
    if n > 0 {
      Associative(Joined(words[..n]) + "_", words[n], [c]);
    }
  }

  lemma JoinedGrows(words: seq<string>, w: string)
    ensures Joined(words + [w]) == if words == [] then w else Joined(words) + "_" + w
  {
    assert (words + [w])[..|words|] == words;
  }

  lemma {:induction false} JoinedIsEmptyOnlyForNone(words: seq<string>)
    requires AreWords(words)
    ensures Joined(words) == "" <==> words == []
  {
  }

  lemma ScannedSnoc(s: string, c: char)
    ensures Scanned(s + [c]) == if Alphanumeric(c) then Scanned(s) + [Lower(c)]
                                else if Words(s) != [] && EndsInWord(s) then Scanned(s) + "_"
                                else Scanned(s)
  {
    hide Words, Joined;
    WordsSnoc(s, c);
    if s == [] {
      NoWords();
    }
    if Alphanumeric(c) {
      if EndsInWord(s) {
        JoinedExtends(Words(s), Lower(c));
      } else {
        JoinedGrows(Words(s), [Lower(c)]);
        JoinedOfNone();
      }
    }
  }

  lemma JoinedOfNone()
    ensures Joined([]) == ""
  {
  }

  method TopicIdentifier(value: string) returns (identifier: string)
    ensures identifier == Identifier(value)
  {
    identifier := "";
    var lastWasSeparator := false;
    for i := 0 to |value|
      invariant identifier == Scanned(value[..i])
      invariant lastWasSeparator <==> Words(value[..i]) != [] && !EndsInWord(value[..i])
    {
      var c := value[i];
      assert value[..i + 1] == value[..i] + [c];
      ScannedSnoc(value[..i], c);
      WordsAreWords(value[..i]);
      JoinedIsEmptyOnlyForNone(Words(value[..i]));
      if Alphanumeric(c) {
        identifier := identifier + [Lower(c)];
        lastWasSeparator := false;
      } else if !lastWasSeparator && identifier != "" {
        identifier := identifier + "_";
        lastWasSeparator := true;
      }
    }
    assert value[..|value|] == value;
    WordsAreWords(value);
    ghost var joined := Joined(Words(value));
    JoinedIsEmptyOnlyForNone(Words(value));
    if joined != "" {
      JoinedIsCanonical(Words(value));
    }
    while identifier != "" && identifier[|identifier| - 1] == '_'
      invariant identifier == joined || (joined != "" && identifier == joined + "_")
      decreases |identifier|
    {
      identifier := identifier[..|identifier| - 1];
    }
    if identifier == "" {
      identifier := FALLBACK;
    }
  }

  // ----- Component keys -----

  function Hex(bytes: seq<byte>): string {
    if bytes == [] then "" else [Digit(bytes[0] / 16), Digit(bytes[0] % 16)] + Hex(bytes[1..])
  }

  lemma {:induction false} HexIsInjective(a: seq<byte>, b: seq<byte>)
    requires Hex(a) == Hex(b)
    ensures a == b
    decreases |a|
  {
    hide Digit;
    if a != [] && b != [] {
      var s, t := Hex(a), Hex(b);
      assert s[0] == t[0] && s[1] == t[1];
      DigitIsInjective(a[0] / 16, b[0] / 16);
      DigitIsInjective(a[0] % 16, b[0] % 16);
      assert s[2..] == Hex(a[1..]) && t[2..] == Hex(b[1..]);
      HexIsInjective(a[1..], b[1..]);
      assert a == [a[0]] + a[1..] && b == [b[0]] + b[1..];
    }
  }

  function Underscores(s: string): nat {
    if s == [] then 0 else (if s[0] == '_' then 1 else 0) + Underscores(s[1..])
  }

  lemma {:induction false} UnderscoresConcat(a: string, b: string)
    ensures Underscores(a + b) == Underscores(a) + Underscores(b)
  {
    if a == [] {
      assert a + b == b;
    } else {
      assert (a + b)[1..] == a[1..] + b;
      UnderscoresConcat(a[1..], b);
    }
  }

  lemma {:induction false} HexHasNoUnderscore(bytes: seq<byte>)
    ensures Underscores(Hex(bytes)) == 0
  {
    hide Digit;
    if bytes != [] {
      HexHasNoUnderscore(bytes[1..]);
      var s := Hex(bytes);
      assert s[1..][1..] == Hex(bytes[1..]);
    }
  }

  predicate HasSerial(serial: seq<byte>) {
    exists i :: 0 <= i < |serial| && serial[i] != 0
  }

  function NodeKey(client: string, id: NodeId, serial: seq<byte>): string {
    if HasSerial(serial) then "velux_" + Hex(serial) else Identifier(client) + ("_node_" + Decimal(id))
  }

  function GroupKey(client: string, id: GroupId): string {
    Identifier(client) + ("_group_" + Decimal(id))
  }

  lemma SerialKeysDifferFromOthers(serial: seq<byte>, prefix: string, suffix: string)
    requires Underscores(suffix) >= 2
    ensures "velux_" + Hex(serial) != prefix + suffix
  {
    UnderscoresConcat("velux_", Hex(serial));
    HexHasNoUnderscore(serial);
    UnderscoresConcat(prefix, suffix);
    VeluxHasOneUnderscore();
  }

  lemma VeluxHasOneUnderscore()
    ensures Underscores("velux_") == 1
  {
    UnderscoresConcat("velux", "_");
    UnderscoresConcat("vel", "ux");
    UnderscoresConcat("v", "el");
    assert "velux" == "vel" + "ux" && "vel" == "v" + "el" && "velux_" == "velux" + "_";
    UnderscoresConcat("e", "l");
    UnderscoresConcat("u", "x");
    assert "el" == "e" + "l" && "ux" == "u" + "x";
  }

  lemma SuffixHasUnderscores(middle: string, rest: string)
    requires |middle| > 1 && middle[0] == '_' && middle[|middle| - 1] == '_'
    ensures Underscores(middle + rest) >= 2
  {
    var n := |middle| - 1;
    UnderscoresConcat(middle, rest);
    assert middle == middle[..n] + ['_'];
    UnderscoresConcat(middle[..n], ['_']);
  }

  /** Node keys coincide exactly for a shared non-zero serial or, without serials, the same node;
      group keys exactly for the same group; a node and a group never share a key. */
  lemma KeysAreCollisionFree(client: string, a: NodeId, serialA: seq<byte>, b: NodeId, serialB: seq<byte>,
                             g: GroupId, h: GroupId)
    ensures NodeKey(client, a, serialA) == NodeKey(client, b, serialB)
       <==> if HasSerial(serialA) then serialA == serialB else !HasSerial(serialB) && a == b
    ensures GroupKey(client, g) == GroupKey(client, h) <==> g == h
    ensures NodeKey(client, a, serialA) != GroupKey(client, g)
  {
    hide Identifier, Decimal, Hex, Underscores, HasSerial;
    var x := Identifier(client);
    SuffixHasUnderscores("_node_", Decimal(a));
    SuffixHasUnderscores("_node_", Decimal(b));
    SuffixHasUnderscores("_group_", Decimal(g));
    SerialKeysDifferFromOthers(serialA, x, "_node_" + Decimal(b));
    SerialKeysDifferFromOthers(serialB, x, "_node_" + Decimal(a));
    SerialKeysDifferFromOthers(serialA, x, "_group_" + Decimal(g));
    if NodeKey(client, a, serialA) == NodeKey(client, b, serialB) {
      if HasSerial(serialA) {
        PrefixCancels("velux_", Hex(serialA), Hex(serialB));
        HexIsInjective(serialA, serialB);
      } else {
        PrefixCancels(x, "_node_" + Decimal(a), "_node_" + Decimal(b));
        PrefixCancels("_node_", Decimal(a), Decimal(b));
        DecimalIsInjective(a, b);
      }
    }
    if GroupKey(client, g) == GroupKey(client, h) {
      PrefixCancels(x, "_group_" + Decimal(g), "_group_" + Decimal(h));
      PrefixCancels("_group_", Decimal(g), Decimal(h));
      DecimalIsInjective(g, h);
    }
    assert (x + ("_node_" + Decimal(a)))[|x| + 1] == 'n';
    assert (x + ("_group_" + Decimal(g)))[|x| + 1] == 'g';
  }
}
