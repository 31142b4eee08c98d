/**
 * The text the scripted preview recogniser produces, and the projection that
 * drops the `nil` entries of the recognised-utterance stream.
 */
module Utterance {
  import opened Wrappers

  /** The fixed word list the preview recogniser "hears", in order. */
  const Words: seq<string> := ["this", "is", "a", "preview", "speech", "recognition"]

  /** The letters of all the words together. */
  function TotalLength(ws: seq<string>): nat {
    if ws == [] then 0 else |ws[0]| + TotalLength(ws[1..])
  }

  /** Words joined by single spaces, with no leading or trailing space. */
  function Joined(ws: seq<string>): (r: string)
    decreases |ws|
  {
    if ws == [] then ""
    else if |ws| == 1 then ws[0]
    else ws[0] + " " + Joined(ws[1..])
  }

  /**
   * The joined text holds every letter of every word and exactly one
   * separator between two words, and it starts with the first word.
   */
  lemma {:induction false} JoinedShape(ws: seq<string>)
    requires ws != []
    ensures |Joined(ws)| == TotalLength(ws) + |ws| - 1
    ensures |ws[0]| <= |Joined(ws)| && Joined(ws)[..|ws[0]|] == ws[0]
    decreases |ws|
  {
    if |ws| > 1 {
      JoinedShape(ws[1..]);
    }
  }

  /** Joining one more word appends a single space and that word. */
  lemma {:induction false} JoinedSnoc(ws: seq<string>, w: string)
    requires ws != []
    ensures Joined(ws + [w]) == Joined(ws) + " " + w
    decreases |ws|
  {
    if |ws| == 1 {
      assert (ws + [w])[1..] == [w];
    } else {
      assert (ws + [w])[1..] == ws[1..] + [w];
      JoinedSnoc(ws[1..], w);
    }
  }

  /** The texts read off `ws` one word at a time: the k-th is the first k words joined. */
  function Utterances(ws: seq<string>): (r: seq<string>)
    ensures |r| == |ws|
  {
    seq(|ws|, j requires 0 <= j < |ws| => Joined(ws[..j + 1]))
  }

  /** Each text after the first is its predecessor, a space and the next word. */
  lemma UtterancesStep(ws: seq<string>, j: nat)
    requires 0 < j < |ws|
    ensures Utterances(ws)[j] == Utterances(ws)[j - 1] + " " + ws[j]
  {
    assert ws[..j + 1] == ws[..j] + [ws[j]];
    JoinedSnoc(ws[..j], ws[j]);
  }

  /** Reading one more word adds exactly one text at the end. */
  lemma UtterancesSnoc(ws: seq<string>, n: nat)
    requires n < |ws|
    ensures Utterances(ws[..n + 1]) == Utterances(ws[..n]) + [Joined(ws[..n + 1])]
  {
    forall j | 0 <= j < n
      ensures Utterances(ws[..n + 1])[j] == Utterances(ws[..n])[j]
    {
      assert ws[..n + 1][..j + 1] == ws[..j + 1] == ws[..n][..j + 1];
    }
    assert ws[..n + 1][..n + 1] == ws[..n + 1];
  }

  /** `s` is a proper prefix of `t`. */
  predicate StrictPrefix(s: string, t: string) {
    |s| < |t| && s == t[..|s|]
  }

  /** Earlier texts are proper prefixes of later ones: the utterance only grows. */
  lemma {:induction false} UtterancesGrow(ws: seq<string>, i: nat, j: nat)
    requires i < j < |ws|
    ensures StrictPrefix(Utterances(ws)[i], Utterances(ws)[j])
    decreases j - i
  {
    var u := Utterances(ws);
    UtterancesStep(ws, j);
    if i + 1 < j {
      UtterancesGrow(ws, i, j - 1);
      assert u[j][..|u[j - 1]|] == u[j - 1];
      assert u[j][..|u[i]|] == u[j - 1][..|u[i]|];
    }
  }

  /** What the preview recogniser says for its fixed word list. */
  lemma PreviewUtterances()
    ensures Utterances(Words)[0] == "this"
    ensures Utterances(Words)[1] == "this is"
    ensures Utterances(Words)[5] == "this is a preview speech recognition"
  {
    assert Words[..1] == ["this"];
    UtterancesStep(Words, 1);
    UtterancesStep(Words, 2);
    UtterancesStep(Words, 3);
    UtterancesStep(Words, 4);
    UtterancesStep(Words, 5);
  }

  /** Every text, wrapped as a non-`nil` stream entry. */
  function Wrap(texts: seq<string>): (r: seq<Option<string>>)
    ensures |r| == |texts|
  {
    seq(|texts|, j requires 0 <= j < |texts| => Some(texts[j]))
  }

  /** The non-`nil` entries of a stream, unwrapped, in order (`compactMap { $0 }`). */
  function Compact<T>(s: seq<Option<T>>): (r: seq<T>)
    ensures |r| <= |s|
  {
    if s == [] then []
    else
      var rest := Compact(s[..|s| - 1]);
      match s[|s| - 1]
      case None => rest
      case Some(v) => rest + [v]
  }

  /** The projection is order-preserving: it distributes over concatenation. */
  lemma {:induction false} CompactAppend<T>(s: seq<Option<T>>, t: seq<Option<T>>)
    ensures Compact(s + t) == Compact(s) + Compact(t)
    decreases |t|
  {
    if t == [] {
      assert s + t == s;
    } else {
      assert (s + t)[..|s + t| - 1] == s + t[..|t| - 1];
      CompactAppend(s, t[..|t| - 1]);
    }
  }

  /** One output per non-`nil` entry and none per `nil` entry. */
  lemma CompactSingletons<T>(v: T)
    ensures Compact<T>([None]) == []
    ensures Compact([Some(v)]) == [v]
  {
  }

  /** A value comes out of the projection exactly when it went in as non-`nil`. */
  lemma {:induction false} CompactMembership<T>(s: seq<Option<T>>, v: T)
    ensures v in Compact(s) <==> Some(v) in s
    decreases |s|
  {
    if s != [] {
      CompactMembership(s[..|s| - 1], v);
      assert s == s[..|s| - 1] + [s[|s| - 1]];
    }
  }

  /** Unwrapping wrapped texts gives the texts back. */
  lemma {:induction false} CompactWrap(texts: seq<string>)
    ensures Compact(Wrap(texts)) == texts
    decreases |texts|
  {
    if texts != [] {
      var n := |texts| - 1;
      assert Wrap(texts)[..n] == Wrap(texts[..n]);
      CompactWrap(texts[..n]);
      assert texts == texts[..n] + [texts[n]];
    }
  }
}
