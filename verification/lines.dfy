/** Splitting text into '\n'-separated lines: the reference against which the
    one-pass line scanners of the annotation font and of `round.py` are proved. */
module Lines {

  /** The pieces of `s` between newlines, in order; "" gives one empty line and
      every newline starts a new (possibly empty) line. */
  function Split(s: string): (r: seq<string>)
    ensures |r| >= 1
  {
    if s == [] then [[]]
    else
      var p := Split(s[..|s| - 1]);
      var c := s[|s| - 1];
      if c == '\n' then p + [[]] else p[..|p| - 1] + [p[|p| - 1] + [c]]
  }

  /** The pieces glued back together with '\n' between consecutive ones. */
  function Join(ps: seq<string>): string
    requires |ps| >= 1
  {
    if |ps| == 1 then ps[0] else Join(ps[..|ps| - 1]) + "\n" + ps[|ps| - 1]
  }

  predicate NoNewline(s: string) {
    forall i :: 0 <= i < |s| ==> s[i] != '\n'
  }

  function Newlines(s: string): nat {
    if s == [] then 0 else Newlines(s[..|s| - 1]) + (if s[|s| - 1] == '\n' then 1 else 0)
  }

  /** Splitting loses nothing: joining the lines gives the text back, and no
      line contains a newline. */
  lemma {:induction false} JoinSplit(s: string)
    ensures Join(Split(s)) == s
    ensures forall j :: 0 <= j < |Split(s)| ==> NoNewline(Split(s)[j])
  {
    if s != [] {
      var init, c := s[..|s| - 1], s[|s| - 1];
      JoinSplit(init);
      var p := Split(init);
      LastSplit(s, init, c);
      if c == '\n' {
        SplitNewline(init);
        JoinSnoc(p, []);
        assert init + "\n" + [] == s;
      } else {
        SplitAppendPlain(init, [c]);
        JoinGrow(p, c);
        assert NoNewline(p[|p| - 1] + [c]);
      }
    }
  }

  lemma JoinSnoc(ps: seq<string>, q: string)
    requires |ps| >= 1
    ensures Join(ps + [q]) == Join(ps) + "\n" + q
  {
    assert (ps + [q])[..|ps|] == ps;
  }

  /** Growing the last line grows the joined text by the same character. */
  lemma JoinGrow(p: seq<string>, c: char)
    requires |p| >= 1
    ensures Join(p[..|p| - 1] + [p[|p| - 1] + [c]]) == Join(p) + [c]
  {
    var q, x := p[..|p| - 1], p[|p| - 1];
    LastSplit(p, q, x);
    if |p| == 1 {
      assert q + [x + [c]] == [x + [c]];
    } else {
      JoinGrowMore(q, x, c);
    }
  }

  lemma JoinGrowMore(q: seq<string>, x: string, c: char)
    requires |q| >= 1
    ensures Join(q + [x + [c]]) == Join(q + [x]) + [c]
  {
    var j := Join(q) + "\n";
    var grown, plain := Join(q + [x + [c]]), Join(q + [x]);
    JoinSnoc(q, x + [c]);
    JoinSnoc(q, x);
    assert grown == j + (x + [c]);
    assert plain == j + x;
    AppendAssoc(j, x, [c]);
  }

  lemma AppendAssoc<T>(a: seq<T>, b: seq<T>, c: seq<T>)
    ensures a + (b + c) == (a + b) + c
  {
  }

  /** One line per newline, plus one. */
  lemma {:induction false} SplitCount(s: string)
    ensures |Split(s)| == Newlines(s) + 1
  {
    if s != [] {
      SplitCount(s[..|s| - 1]);
    }
  }

  /** Appending text without a newline only lengthens the last line. */
  lemma {:induction false} SplitAppendPlain(s: string, t: string)
    requires NoNewline(t)
    ensures Split(s + t) == Split(s)[..|Split(s)| - 1] + [Split(s)[|Split(s)| - 1] + t]
  {
    if t == [] {
      assert s + t == s;
      var p := Split(s);
      assert p[|p| - 1] + t == p[|p| - 1];
      assert p == p[..|p| - 1] + [p[|p| - 1]];
    } else {
      var t' := t[..|t| - 1];
      assert (s + t)[..|s + t| - 1] == s + t';
      assert (s + t)[|s + t| - 1] == t[|t| - 1];
      var c := t[|t| - 1];
      assert c != '\n';
      SplitAppendPlain(s, t');
      var P := Split(s);
      var p' := Split(s + t');
      assert p' == P[..|P| - 1] + [P[|P| - 1] + t'];
      assert p'[..|p'| - 1] == P[..|P| - 1];
      assert Split(s + t) == p'[..|p'| - 1] + [p'[|p'| - 1] + [c]];
      assert t' + [c] == t;
      assert (P[|P| - 1] + t') + [c] == P[|P| - 1] + t;
    }
  }

  /** The other round trip: lines without newlines are recovered exactly. */
  lemma {:induction false} SplitJoin(ps: seq<string>)
    requires |ps| >= 1
    requires forall j :: 0 <= j < |ps| ==> NoNewline(ps[j])
    ensures Split(Join(ps)) == ps
  {
    if |ps| == 1 {
      SplitAppendPlain([], ps[0]);
      assert [] + ps[0] == ps[0];
    } else {
      SplitJoin(ps[..|ps| - 1]);
      SplitJoinLast(ps);
    }
  }

  /** Joining one more newline-free line onto a split text appends it. */
  lemma SplitJoinLast(ps: seq<string>)
    requires |ps| >= 2 && NoNewline(ps[|ps| - 1])
    requires Split(Join(ps[..|ps| - 1])) == ps[..|ps| - 1]
    ensures Split(Join(ps)) == ps
  {
    var init, q := ps[..|ps| - 1], ps[|ps| - 1];
    LastSplit(ps, init, q);
    var j := Join(init);
    assert Join(ps) == j + "\n" + q;
    SplitNewline(j);
    SplitAppendPlain(j + "\n", q);
    AfterBreak(Split(j + "\n"), init, q);
  }

  lemma LastSplit<T>(ps: seq<T>, init: seq<T>, q: T)
    requires |ps| >= 1 && init == ps[..|ps| - 1] && q == ps[|ps| - 1]
    ensures ps == init + [q]
  {
  }

  lemma AfterBreak(p: seq<string>, init: seq<string>, q: string)
    requires p == init + [[]]
    ensures p[..|p| - 1] + [p[|p| - 1] + q] == init + [q]
  {
    assert p[..|p| - 1] == init;
    assert p[|p| - 1] + q == q;
  }

  /** A trailing newline opens one more, empty, line. */
  lemma SplitNewline(t: string)
    ensures Split(t + "\n") == Split(t) + [[]]
  {
    assert (t + "\n")[..|t|] == t;
  }

  /** The largest element, 0 for none. */
  function Max(xs: seq<nat>): (m: nat)
    ensures forall i :: 0 <= i < |xs| ==> xs[i] <= m
    ensures xs != [] ==> exists i :: 0 <= i < |xs| && xs[i] == m
    ensures xs == [] ==> m == 0
  {
    if xs == [] then 0
    else
      var m := Max(xs[..|xs| - 1]);
      var x := xs[|xs| - 1];
      if x > m then x else m
  }

  /** `weight` applied to every line. */
  function Weights(ps: seq<string>, weight: string -> nat): (ws: seq<nat>)
    ensures |ws| == |ps|
    ensures forall i :: 0 <= i < |ps| ==> ws[i] == weight(ps[i])
  {
    if ps == [] then [] else Weights(ps[..|ps| - 1], weight) + [weight(ps[|ps| - 1])]
  }

  lemma WeightsSnoc(ps: seq<string>, q: string, weight: string -> nat)
    ensures Weights(ps + [q], weight) == Weights(ps, weight) + [weight(q)]
  {
    assert (ps + [q])[..|ps|] == ps;
  }

  lemma MaxSnoc(xs: seq<nat>, x: nat)
    ensures Max(xs + [x]) == if x > Max(xs) then x else Max(xs)
  {
    assert (xs + [x])[..|xs|] == xs;
  }

  /** No line is longer than the text it was joined into. */
  lemma {:induction false} JoinLonger(ps: seq<string>)
    requires |ps| >= 1
    ensures forall j :: 0 <= j < |ps| ==> |ps[j]| <= |Join(ps)|
  {
    if |ps| > 1 {
      JoinLonger(ps[..|ps| - 1]);
      assert forall j :: 0 <= j < |ps| - 1 ==> ps[j] == ps[..|ps| - 1][j];
    }
  }

  /** The state of a one-pass line measure after the prefix `t`: the newlines
      seen, the weight of the current line, and the greatest weight of a
      line already closed. */
  predicate Scanned(t: string, weight: string -> nat, newlines: nat, len: nat, widest: nat) {
    && newlines + 1 == |Split(t)|
    && len == weight(Split(t)[newlines])
    && widest == Max(Weights(Split(t)[..newlines], weight))
  }

  /** A newline closes the current line and opens an empty one. */
  lemma ScanBreak(text: string, i: nat, weight: string -> nat, newlines: nat, len: nat, widest: nat)
    requires i < |text| && text[i] == '\n' && Scanned(text[..i], weight, newlines, len, widest)
    ensures Scanned(text[..i + 1], weight, newlines + 1, weight([]), if len > widest then len else widest)
  {
    var t := text[..i];
    var ps := Split(t);
    assert text[..i + 1] == t + ['\n'];
    assert (t + ['\n'])[..|t|] == t;
    assert Split(t + ['\n']) == ps + [[]];
    assert (ps + [[]])[..newlines + 1] == ps;
    assert ps == ps[..newlines] + [ps[newlines]];
    WeightsSnoc(ps[..newlines], ps[newlines], weight);
    MaxSnoc(Weights(ps[..newlines], weight), weight(ps[newlines]));
  }

  /** Any other character extends the current line. */
  lemma ScanGrow(text: string, i: nat, weight: string -> nat, newlines: nat, len: nat, widest: nat)
    requires i < |text| && text[i] != '\n' && Scanned(text[..i], weight, newlines, len, widest)
    ensures Scanned(text[..i + 1], weight, newlines, weight(Split(text[..i])[newlines] + [text[i]]), widest)
  {
    var t, c := text[..i], text[i];
    var ps := Split(t);
    var last := ps[newlines] + [c];
    assert text[..i + 1] == t + [c];
    assert (t + [c])[..|t|] == t;
    assert Split(t + [c]) == ps[..newlines] + [last];
    assert (ps[..newlines] + [last])[..newlines] == ps[..newlines];
  }

  /** At the end of the text the current line is the last one: the widest
      line is the wider of it and the widest closed line. */
  lemma ScanEnd(t: string, weight: string -> nat, newlines: nat, len: nat, widest: nat)
    requires Scanned(t, weight, newlines, len, widest)
    ensures Max(Weights(Split(t), weight)) == if len > widest then len else widest
  {
    var ps := Split(t);
    assert ps == ps[..newlines] + [ps[newlines]];
    WeightsSnoc(ps[..newlines], ps[newlines], weight);
    MaxSnoc(Weights(ps[..newlines], weight), weight(ps[newlines]));
  }
}
