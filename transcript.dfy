/**
 * The transcript buffer of the microphone sample: words keyed by their start
 * offset in milliseconds, kept in a sorted dictionary, written by transcript
 * updates and rendered in ascending key order with a space after each word.
 * This module holds the values and the specification functions; the view model
 * that mutates the buffer in place is in module ViewModels.
 */
module TranscriptAssembly {
  import opened Common

  /** A recognised word, reduced to the two fields the view model reads. */
  datatype Word = Word(start: Int32, text: string)

  /** The `Result` of a partial or final transcript event: its full text and its words. */
  datatype TranscriptResult = TranscriptResult(text: string, words: seq<Word>)

  /** The sorted dictionary from start offset to word text. */
  type Buffer = map<Int32, string>

  /**
   * The buffer after writing `buffer[w.start] := w.text` for each word, first
   * to last: no key is ever removed, and the last word always lands.
   */
  function ApplyWords(m: Buffer, words: seq<Word>): (r: Buffer)
    ensures m.Keys <= r.Keys
    ensures words != [] ==> words[|words| - 1].start in r && r[words[|words| - 1].start] == words[|words| - 1].text
  {
    if words == [] then m
    else
      var w := words[|words| - 1];
      ApplyWords(m, words[..|words| - 1])[w.start := w.text]
  }

  /** The start offsets that occur in `words`. */
  function StartsOf(words: seq<Word>): set<Int32> {
    set i | 0 <= i < |words| :: words[i].start
  }

  /** `words[i]` is the last word in `words` with its start offset. */
  predicate LastAt(words: seq<Word>, i: nat)
    requires i < |words|
  {
    forall j :: i < j < |words| ==> words[j].start != words[i].start
  }

  lemma StartsOfSnoc(words: seq<Word>)
    requires words != []
    ensures StartsOf(words) == StartsOf(words[..|words| - 1]) + {words[|words| - 1].start}
  {
    var init := words[..|words| - 1];
    forall k | k in StartsOf(words) ensures k in StartsOf(init) + {words[|words| - 1].start} {
      var i :| 0 <= i < |words| && words[i].start == k;
      if i < |init| {
        assert init[i] == words[i];
      }
    }
    forall k | k in StartsOf(init) ensures k in StartsOf(words) {
      var i :| 0 <= i < |init| && init[i].start == k;
      assert words[i] == init[i];
    }
  }

  /** An update adds exactly its start offsets to the buffer's keys. */
  lemma {:induction false} ApplyWordsKeys(m: Buffer, words: seq<Word>)
    ensures ApplyWords(m, words).Keys == m.Keys + StartsOf(words)
  {
    if words != [] {
      ApplyWordsKeys(m, words[..|words| - 1]);
      StartsOfSnoc(words);
    }
  }

  /** At each start offset of an update, the buffer holds the text of the LAST word with that offset. */
  lemma {:induction false} ApplyWordsLastWins(m: Buffer, words: seq<Word>)
    ensures forall i :: 0 <= i < |words| && LastAt(words, i) ==>
      words[i].start in ApplyWords(m, words) && ApplyWords(m, words)[words[i].start] == words[i].text
  {
    if words != [] {
      var n := |words| - 1;
      var init := words[..n];
      ApplyWordsLastWins(m, init);
      forall i | 0 <= i < n && LastAt(words, i)
        ensures words[i].start in ApplyWords(m, words) && ApplyWords(m, words)[words[i].start] == words[i].text
      {
        assert init[i] == words[i];
        assert LastAt(init, i);
        ApplyWordsKeys(m, init);
      }
    }
  }

  /** Keys an update does not mention keep their text. */
  lemma {:induction false} ApplyWordsKeepsOthers(m: Buffer, words: seq<Word>)
    ensures forall k :: k in m && k !in StartsOf(words) ==> k in ApplyWords(m, words) && ApplyWords(m, words)[k] == m[k]
  {
    if words != [] {
      var n := |words| - 1;
      ApplyWordsKeepsOthers(m, words[..n]);
      StartsOfSnoc(words);
      ApplyWordsKeys(m, words[..n]);
    }
  }

  /** Writing a key that an update does not touch commutes with the update. */
  lemma {:induction false} WriteCommutesWithUpdate(m: Buffer, words: seq<Word>, k: Int32, v: string)
    requires k !in StartsOf(words)
    ensures ApplyWords(m, words)[k := v] == ApplyWords(m[k := v], words)
  {
    if words != [] {
      var n := |words| - 1;
      StartsOfSnoc(words);
      WriteCommutesWithUpdate(m, words[..n], k, v);
    }
  }

  /**
   * Arrival order does not matter for updates that touch different offsets:
   * applying them in either order yields the same buffer and the same rendering.
   */
  lemma {:induction false} DisjointUpdatesCommute(m: Buffer, a: seq<Word>, b: seq<Word>)
    requires StartsOf(a) !! StartsOf(b)
    ensures ApplyWords(ApplyWords(m, a), b) == ApplyWords(ApplyWords(m, b), a)
    ensures Render(ApplyWords(ApplyWords(m, a), b)) == Render(ApplyWords(ApplyWords(m, b), a))
  {
    if b != [] {
      var n := |b| - 1;
      var w := b[n];
      StartsOfSnoc(b);
      DisjointUpdatesCommute(m, a, b[..n]);
      WriteCommutesWithUpdate(ApplyWords(m, b[..n]), a, w.start, w.text);
    }
  }

  /** The part of the buffer whose keys are in `keys`. */
  function Restrict(m: Buffer, keys: set<Int32>): Buffer {
    map k | k in keys && k in m :: m[k]
  }

  /** The least element of a non-empty set of offsets. */
  ghost function MinKey(s: set<Int32>): (k: Int32)
    requires s != {}
    ensures k in s && forall j :: j in s ==> k <= j
  {
    var x :| x in s;
    assert forall j :: j in s ==> j == x || j in s - {x};
    if s - {x} == {} then x
    else
      var y := MinKey(s - {x});
      if x <= y then x else y
  }

  /**
   * The rendered transcript: each word, in ascending order of its key,
   * followed by one space. Empty exactly when the buffer is, and otherwise
   * ending in a space.
   */
  ghost function Render(m: Buffer): (r: string)
    ensures r == "" <==> m == map[]
    ensures r != "" ==> r[|r| - 1] == ' '
    decreases m.Keys
  {
    if m == map[] then ""
    else
      var k := MinKey(m.Keys);
      assert (m - {k}).Keys < m.Keys;
      m[k] + " " + Render(m - {k})
  }

  /** Rendering a part of the buffer starts with its least key's word and a space. */
  lemma RenderLeastFirst(m: Buffer, rest: set<Int32>, k: Int32)
    requires rest <= m.Keys && k in rest
    requires forall j :: j in rest ==> k <= j
    ensures Render(Restrict(m, rest)) == (m[k] + " ") + Render(Restrict(m, rest - {k}))
  {
    var part := Restrict(m, rest);
    assert part.Keys == rest;
    assert MinKey(part.Keys) == k;
    assert part - {k} == Restrict(m, rest - {k});
  }

  lemma AppendAssociative(a: string, b: string, c: string)
    ensures a + (b + c) == (a + b) + c
  {
  }

  /**
   * The rendering loop: walks the keys in ascending order, the order in which
   * the sorted dictionary enumerates its values, appending each word and a space.
   */
  method RenderBuffer(words: Buffer) returns (builder: string)
    ensures builder == Render(words)
  {
    builder := "";
    var rest := words.Keys;
    assert Restrict(words, rest) == words;
    while rest != {}
      invariant rest <= words.Keys
      invariant builder + Render(Restrict(words, rest)) == Render(words)
      decreases rest
    {
      // Only a witness for the choice below: MinKey's contract shows a least key exists.
      ghost var least := MinKey(rest);
      var k :| k in rest && forall j :: j in rest ==> k <= j;
      var piece := words[k] + " ";
      assert (builder + piece) + Render(Restrict(words, rest - {k})) == Render(words) by {
        RenderLeastFirst(words, rest, k);
        AppendAssociative(builder, piece, Render(Restrict(words, rest - {k})));
      }
      builder := builder + piece;
      rest := rest - {k};
    }
    assert Restrict(words, rest) == map[];
  }

  predicate StrictlyIncreasing(keys: seq<Int32>) {
    forall i, j :: 0 <= i < j < |keys| ==> keys[i] < keys[j]
  }

  /** Each word of `keys`, in the order given, followed by one space. */
  function Concat(keys: seq<Int32>, m: Buffer): string
    requires forall i :: 0 <= i < |keys| ==> keys[i] in m
  {
    if keys == [] then "" else m[keys[0]] + " " + Concat(keys[1..], m)
  }

  lemma {:induction false} ConcatOnSubmap(keys: seq<Int32>, small: Buffer, m: Buffer)
    requires forall i :: 0 <= i < |keys| ==> keys[i] in small
    requires forall k :: k in small ==> k in m && m[k] == small[k]
    ensures Concat(keys, small) == Concat(keys, m)
  {
    if keys != [] {
      ConcatOnSubmap(keys[1..], small, m);
    }
  }

  /**
   * The rendering is the concatenation, over the buffer's keys listed in
   * strictly ascending order, of each word followed by a space.
   */
  lemma {:induction false} RenderInAscendingKeyOrder(m: Buffer, keys: seq<Int32>)
    requires StrictlyIncreasing(keys)
    requires m.Keys == set i | 0 <= i < |keys| :: keys[i]
    ensures forall i :: 0 <= i < |keys| ==> keys[i] in m
    ensures Render(m) == Concat(keys, m)
  {
    if keys == [] {
      assert m == map[];
    } else {
      var k := keys[0];
      assert k in m.Keys;
      var rest := m - {k};
      var tail := keys[1..];
      assert rest.Keys == set i | 0 <= i < |tail| :: tail[i] by {
        forall x | x in rest.Keys ensures x in set i | 0 <= i < |tail| :: tail[i] {
          var i :| 0 <= i < |keys| && keys[i] == x;
          assert i != 0;
          assert tail[i - 1] == x;
        }
        forall x | x in set i | 0 <= i < |tail| :: tail[i] ensures x in rest.Keys {
          var i :| 0 <= i < |tail| && tail[i] == x;
          assert keys[i + 1] == x;
        }
      }
      var least := MinKey(m.Keys);
      assert least == k by {
        var i :| 0 <= i < |keys| && keys[i] == least;
        assert keys[0] <= keys[i];
      }
      RenderInAscendingKeyOrder(rest, tail);
      ConcatOnSubmap(tail, rest, m);
    }
  }

  /** Writing a one-word update writes that word. */
  lemma ApplyOneWord(m: Buffer, w: Word)
    ensures ApplyWords(m, [w]) == m[w.start := w.text]
  {
    assert [w][..0] == [];
  }

  /** The buffer after partial "Hello" at 0, partial "world" at 500 and final "Hello," at 0. */
  lemma HelloWorldBuffer()
    ensures ApplyWords(ApplyWords(ApplyWords(map[], [Word(0, "Hello")]), [Word(500, "world")]), [Word(0, "Hello,")])
      == map[0 := "Hello,", 500 := "world"]
  {
    var m1 := ApplyWords(map[], [Word(0, "Hello")]);
    ApplyOneWord(map[], Word(0, "Hello"));
    var m2 := ApplyWords(m1, [Word(500, "world")]);
    ApplyOneWord(m1, Word(500, "world"));
    ApplyOneWord(m2, Word(0, "Hello,"));
  }

  lemma HelloWorldConcat()
    ensures Concat([0, 500], map[0 := "Hello,", 500 := "world"]) == "Hello, world "
  {
    var m: Buffer := map[0 := "Hello,", 500 := "world"];
    var keys: seq<Int32> := [0, 500];
    assert keys[1..] == [500] && keys[1..][1..] == [];
    assert Concat([500], m) == "world ";
    assert Concat(keys, m) == "Hello," + " " + "world ";
    assert "Hello," + " " + "world " == "Hello, world ";
  }

  /** The transcript rendered from that buffer. */
  lemma HelloWorldRender()
    ensures Render(map[0 := "Hello,", 500 := "world"]) == "Hello, world "
  {
    var m: Buffer := map[0 := "Hello,", 500 := "world"];
    var keys: seq<Int32> := [0, 500];
    assert m.Keys == set i | 0 <= i < |keys| :: keys[i] by {
      assert keys[0] == 0 && keys[1] == 500;
    }
    RenderInAscendingKeyOrder(m, keys);
    HelloWorldConcat();
  }
}
