/** Pick lists are stored as one comma-separated column: `",".join` on the way in,
    split, strip and drop-empty on the way out. */
module Csv {

  /** The ASCII characters `str.strip` removes: space, tab to carriage return, and the
      four information separators. */
  predicate IsSpace(c: char) {
    c == ' ' || '\t' <= c <= '\r' || '\U{1C}' <= c <= '\U{1F}'
  }

  function LStrip(s: string): string {
    if s != "" && IsSpace(s[0]) then LStrip(s[1..]) else s
  }

  function RStrip(s: string): string {
    if s != "" && IsSpace(s[|s| - 1]) then RStrip(s[..|s| - 1]) else s
  }

  function Strip(s: string): string {
    RStrip(LStrip(s))
  }

  function CommaAt(s: string): (i: nat)
    ensures i <= |s| && ',' !in s[..i] && (i < |s| ==> s[i] == ',')
  {
    if s == "" || s[0] == ',' then 0
    else
      var i := CommaAt(s[1..]) + 1;
      assert s[..i] == [s[0]] + s[1..][..i - 1];
      i
  }

  /** One field: dropped when nothing is left of it. */
  function Field(s: string): seq<string> {
    if Strip(s) == "" then [] else [Strip(s)]
  }

  function SplitCsv(s: string): seq<string>
    decreases |s|
  {
    var i := CommaAt(s);
    Field(s[..i]) + if i < |s| then SplitCsv(s[i + 1..]) else []
  }

  function JoinCsv(ps: seq<string>): string {
    if ps == [] then ""
    else if |ps| == 1 then ps[0]
    else ps[0] + "," + JoinCsv(ps[1..])
  }

  /** A name that survives the column: non-empty, no comma, no space at either end. */
  predicate Clean(p: string) {
    p != "" && ',' !in p && !IsSpace(p[0]) && !IsSpace(p[|p| - 1])
  }

  ghost predicate AllClean(ps: seq<string>) {
    forall i :: 0 <= i < |ps| ==> Clean(ps[i])
  }

  lemma {:induction false} LStripTrims(s: string)
    ensures var r := LStrip(s);
            && (r != "" ==> !IsSpace(r[0]) && r[|r| - 1] == s[|s| - 1])
            && (forall c :: c in r ==> c in s)
  {
    if s != "" && IsSpace(s[0]) {
      LStripTrims(s[1..]);
    }
  }

  lemma {:induction false} RStripTrims(s: string)
    ensures var r := RStrip(s);
            && (r != "" ==> !IsSpace(r[|r| - 1]) && r[0] == s[0])
            && (forall c :: c in r ==> c in s)
  {
    if s != "" && IsSpace(s[|s| - 1]) {
      RStripTrims(s[..|s| - 1]);
    }
  }

  lemma FieldIsClean(s: string)
    requires ',' !in s
    ensures AllClean(Field(s))
  {
    LStripTrims(s);
    RStripTrims(LStrip(s));
  }

  lemma {:induction false} SplitIsClean(s: string)
    ensures AllClean(SplitCsv(s))
    decreases |s|
  {
    var i := CommaAt(s);
    FieldIsClean(s[..i]);
    if i < |s| {
      SplitIsClean(s[i + 1..]);
    }
  }

  lemma {:induction false} CommaAfter(p: string, rest: string)
    requires ',' !in p
    ensures CommaAt(p + "," + rest) == |p|
  {
    var s := p + "," + rest;
    if p == "" {
      assert s[0] == ',';
    } else {
      assert s[1..] == p[1..] + "," + rest;
      CommaAfter(p[1..], rest);
    }
  }

  lemma {:induction false} NoComma(p: string)
    requires ',' !in p
    ensures CommaAt(p) == |p|
  {
    if p != "" {
      NoComma(p[1..]);
    }
  }

  lemma SplitOne(p: string)
    requires Clean(p)
    ensures SplitCsv(p) == [p]
  {
    NoComma(p);
    assert p[..|p|] == p;
  }

  lemma SplitFirst(p: string, rest: string)
    requires Clean(p)
    ensures SplitCsv(p + "," + rest) == [p] + SplitCsv(rest)
  {
    var s := p + "," + rest;
    CommaAfter(p, rest);
    assert s[..|p|] == p && s[|p| + 1..] == rest;
    assert Field(p) == [p];
  }

  lemma {:induction false} CleanRoundTrip(ps: seq<string>)
    requires AllClean(ps)
    ensures SplitCsv(JoinCsv(ps)) == ps
  {
    if |ps| == 0 {
      assert Strip("") == "";
    } else if |ps| == 1 {
      SplitOne(ps[0]);
    } else {
      SplitFirst(ps[0], JoinCsv(ps[1..]));
      CleanRoundTrip(ps[1..]);
      assert ps == [ps[0]] + ps[1..];
    }
  }

  lemma SplitJoined(ps: seq<string>, rest: seq<string>)
    requires |ps| >= 2 && Clean(ps[0]) && SplitCsv(JoinCsv(ps[1..])) == rest
    ensures SplitCsv(JoinCsv(ps)) == [ps[0]] + rest
  {
    SplitFirst(ps[0], JoinCsv(ps[1..]));
  }

  lemma TailOfSum<T>(xs: seq<T>, ys: seq<T>)
    requires xs != []
    ensures (xs + ys)[0] == xs[0] && (xs + ys)[1..] == xs[1..] + ys
    ensures [xs[0]] + (xs[1..] + ys) == xs + ys
  {
  }

  /** Whatever the last name is, the clean ones before it come back unharmed. */
  lemma {:induction false} SplitAppended(ps: seq<string>, name: string)
    requires AllClean(ps)
    ensures SplitCsv(JoinCsv(ps + [name])) == ps + SplitCsv(name)
  {
    if ps == [] {
      assert ps + [name] == [name];
    } else {
      SplitAppended(ps[1..], name);
      TailOfSum(ps, [name]);
      SplitJoined(ps + [name], ps[1..] + SplitCsv(name));
      TailOfSum(ps, SplitCsv(name));
    }
  }

  /** A list comes back as it was written exactly when every name is clean. */
  lemma RoundTripIff(ps: seq<string>)
    ensures SplitCsv(JoinCsv(ps)) == ps <==> AllClean(ps)
  {
    SplitIsClean(JoinCsv(ps));
    if AllClean(ps) {
      CleanRoundTrip(ps);
    }
  }

  /** The ten characters `str.strip` removes, by code. */
  predicate AllBlank(s: string) {
    forall i :: 0 <= i < |s| ==> 9 <= s[i] as int <= 13 || 28 <= s[i] as int <= 32
  }

  lemma {:induction false} LeftBlanks(pad: string, s: string)
    requires AllBlank(pad) && (s != "" ==> !IsSpace(s[0]))
    ensures LStrip(pad + s) == s
  {
    if pad == "" {
      assert pad + s == s;
    } else {
      assert (pad + s)[1..] == pad[1..] + s;
      LeftBlanks(pad[1..], s);
    }
  }

  lemma {:induction false} RightBlanks(s: string, pad: string)
    requires AllBlank(pad) && (s != "" ==> !IsSpace(s[|s| - 1]))
    ensures RStrip(s + pad) == s
  {
    if pad == "" {
      assert s + pad == s;
    } else {
      assert (s + pad)[..|s + pad| - 1] == s + pad[..|pad| - 1];
      RightBlanks(s, pad[..|pad| - 1]);
    }
  }

  /** Blanks around a clean name are lost in the column, whichever of the ten they are; blanks
      around nothing leave nothing. */
  lemma BlanksAreLost(before: string, p: string, after: string)
    requires AllBlank(before) && AllBlank(after) && (p == "" || Clean(p))
    ensures SplitCsv(JoinCsv([before + p + after])) == if p == "" then [] else [p]
  {
    var s := before + p + after;
    if p == "" {
      assert s == before + after && s + "" == s;
      LeftBlanks(s, "");
    } else {
      assert s == before + (p + after);
      LeftBlanks(before, p + after);
      RightBlanks(p, after);
    }
    NoComma(s);
    assert s[..|s|] == s;
  }

  /** A clean name neither begins nor ends with any of the ten, is not empty and has no comma. */
  lemma CleanIff(p: string)
    ensures Clean(p) <==> p != "" && ',' !in p && !AllBlank([p[0]]) && !AllBlank([p[|p| - 1]])
  {
    if p != "" {
      assert [p[0]][0] == p[0] && [p[|p| - 1]][0] == p[|p| - 1];
    }
  }
}
