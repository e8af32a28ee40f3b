/**
 * The interactive transcript of the Home screen: each transcript line is
 * split into words on single spaces, each word is shown as written, and a
 * click looks up the word with the characters `.`, `,`, `!` and `?` removed.
 */
module Transcript {
  import JsString

  /** The characters of the regular expression class `[.,!?]`. */
  predicate IsStrippedPunctuation(c: char) {
    c == '.' || c == ',' || c == '!' || c == '?'
  }

  predicate HasNoPunctuation(w: string) {
    forall i :: 0 <= i < |w| ==> !IsStrippedPunctuation(w[i])
  }

  /** `word.replace(/[.,!?]/g, '')`. */
  function CleanWord(w: string): (r: string)
    ensures |r| <= |w|
    ensures HasNoPunctuation(r)
  {
    if w == [] then ""
    else if IsStrippedPunctuation(w[0]) then CleanWord(w[1..])
    else [w[0]] + CleanWord(w[1..])
  }

  /** Cleaning works character by character: it distributes over concatenation, so order is kept. */
  lemma {:induction false} CleanConcat(a: string, b: string)
    ensures CleanWord(a + b) == CleanWord(a) + CleanWord(b)
  {
    if a != [] {
      assert (a + b)[1..] == a[1..] + b;
      CleanConcat(a[1..], b);
    } else {
      assert a + b == b;
    }
  }

  /** A word is left unchanged by cleaning exactly when it holds none of `.,!?`. */
  lemma {:induction false} CleanFixpoint(w: string)
    ensures CleanWord(w) == w <==> HasNoPunctuation(w)
  {
    if w != [] {
      CleanFixpoint(w[1..]);
      if IsStrippedPunctuation(w[0]) {
        assert |CleanWord(w)| < |w|;
      } else {
        assert HasNoPunctuation(w) <==> HasNoPunctuation(w[1..]) by {
          if HasNoPunctuation(w[1..]) {
            forall i | 0 <= i < |w| ensures !IsStrippedPunctuation(w[i]) {
              if i > 0 { assert w[i] == w[1..][i - 1]; }
            }
          }
        }
      }
    }
  }

  /** Cleaning twice is the same as cleaning once. */
  lemma CleanIdempotent(w: string)
    ensures CleanWord(CleanWord(w)) == CleanWord(w)
  {
    CleanFixpoint(CleanWord(w));
  }

  /** Every character other than `.,!?` survives cleaning as often as it occurs; those four vanish. */
  lemma {:induction false} CleanKeepsOthers(w: string, c: char)
    ensures multiset(CleanWord(w))[c] == if IsStrippedPunctuation(c) then 0 else multiset(w)[c]
  {
    if w != [] {
      CleanKeepsOthers(w[1..], c);
      assert w == [w[0]] + w[1..];
      assert multiset(w) == multiset{w[0]} + multiset(w[1..]);
      if !IsStrippedPunctuation(w[0]) {
        assert multiset(CleanWord(w)) == multiset{w[0]} + multiset(CleanWord(w[1..]));
      }
    }
  }

  /** `line.text.split(' ')`: the words shown for one transcript line. */
  function Words(line: string): (ws: seq<string>)
    ensures |ws| == JsString.Occurrences(line, ' ') + 1
    ensures JsString.Join(ws, ' ') == line
  {
    JsString.SplitCount(line, ' ');
    JsString.JoinSplit(line, ' ');
    JsString.Split(line, ' ')
  }

  /** The word looked up when the `k`-th displayed word of `line` is clicked. */
  function ClickedWord(line: string, k: nat): (w: string)
    requires k < |Words(line)|
    ensures ' ' !in w && HasNoPunctuation(w)
    ensures CleanWord(w) == w
  {
    var word := Words(line)[k];
    assert word in Words(line);
    CleanIdempotent(word);
    CleanKeepsOthers(word, ' ');
    assert ' ' !in multiset(CleanWord(word));
    CleanWord(word)
  }
}
