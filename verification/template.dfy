/** The message templates of the site are JavaScript template literals:
    fixed text with values spliced in. `Fill` renders such a template and
    `Read` is its inverse, the parse a human or a program on the receiving
    side performs to get the values back. Every value but the last ends at
    the first line break after it, so `Read` recovers the values exactly
    when those values are single-line and the fixed text after each of them
    contains a line break (`Delimited`). */
module Template {
  import opened Wrappers
  import opened Text

  /** `lits[0] + vals[0] + lits[1] + ... + vals[n-1] + lits[n]`. */
  function Fill(lits: seq<string>, vals: seq<string>): (s: string)
    requires |lits| == |vals| + 1
    ensures StartsWith(s, lits[0])
    decreases |vals|
  {
    if |vals| == 0 then lits[0]
    else lits[0] + vals[0] + Fill(lits[1..], vals[1..])
  }

  /** Every value but the last is single-line, and the fixed text after it
      contains a line break that ends it. */
  predicate Delimited(lits: seq<string>, vals: seq<string>) {
    && |lits| == |vals| + 1
    && (forall i :: 0 <= i < |vals| - 1 ==> Lacks(vals[i], '\n'))
    && (forall i :: 1 <= i < |lits| - 1 ==> !Lacks(lits[i], '\n'))
  }

  /** Cuts the first value off `s`, a filling of a template that starts
      with `lit0`, value, `lit1`: the value runs up to the line break of
      `lit1`. Returns the value and the rest, which starts with `lit1`. */
  function CutFirst(lit0: string, lit1: string, s: string): (r: Option<(string, string)>)
    ensures r.Some? ==> s == lit0 + r.value.0 + r.value.1
  {
    if !StartsWith(s, lit0) then None
    else
      var t := s[|lit0|..];
      var j := IndexOf(lit1, '\n');
      var k := IndexOf(t, '\n');
      if j == |lit1| || k < j then None
      else
        assert s == lit0 + t[..k - j] + t[k - j..];
        Some((t[..k - j], t[k - j..]))
  }

  /** Parses `s` as a filling of `lits`. Whatever it returns fills the
      template back to `s` exactly. */
  function Read(lits: seq<string>, s: string): (r: Option<seq<string>>)
    requires |lits| >= 1
    ensures r.Some? ==> |r.value| == |lits| - 1 && Fill(lits, r.value) == s
    decreases |lits|
  {
    if |lits| == 1 then
      if s == lits[0] then Some([]) else None
    else if |lits| == 2 then
      if StartsWith(s, lits[0]) && EndsWith(s[|lits[0]|..], lits[1]) then
        var t := s[|lits[0]|..];
        var v := t[..|t| - |lits[1]|];
        assert s == lits[0] + v + lits[1];
        Some([v])
      else None
    else
      match CutFirst(lits[0], lits[1], s)
      case None => None
      case Some((v, rest)) =>
        match Read(lits[1..], rest)
        case None => None
        case Some(vs) => Some([v] + vs)
  }

  /** Dropping the first literal and value keeps a filling delimited. */
  lemma DelimitedTail(lits: seq<string>, vals: seq<string>)
    requires Delimited(lits, vals)
    requires |vals| >= 1
    ensures Delimited(lits[1..], vals[1..])
  {
    forall i | 0 <= i < |vals[1..]| - 1
      ensures Lacks(vals[1..][i], '\n')
    {
      assert vals[1..][i] == vals[i + 1];
    }
    forall i | 1 <= i < |lits[1..]| - 1
      ensures !Lacks(lits[1..][i], '\n')
    {
      assert lits[1..][i] == lits[i + 1];
    }
  }

  /** The first line break of `v + f` where `v` is single-line and `f`
      starts with a literal holding a line break lies inside that literal. */
  lemma BreakAfterValue(v: string, lit: string, f: string)
    requires Lacks(v, '\n')
    requires !Lacks(lit, '\n')
    requires StartsWith(f, lit)
    ensures IndexOf(v + f, '\n') == |v| + IndexOf(lit, '\n')
  {
    IndexOfAppend(v, f, '\n');
    assert f == lit + f[|lit|..];
    IndexOfPrefix(lit, f[|lit|..], '\n');
  }

  /** Reading a filling of a one-value template gives back that value. */
  lemma ReadFillOne(lits: seq<string>, v: string)
    requires |lits| == 2
    ensures Read(lits, Fill(lits, [v])) == Some([v])
  {
    var s := Fill(lits, [v]);
    assert [v][1..] == [];
    assert Fill(lits[1..], []) == lits[1];
    assert s == lits[0] + (v + lits[1]);
    var t := s[|lits[0]|..];
    assert t == v + lits[1];
    assert EndsWith(t, lits[1]);
    assert t[..|t| - |lits[1]|] == v;
  }

  /** Cutting a single-line value followed by a literal that holds a line
      break gives back the value and the rest. */
  lemma CutValue(lit0: string, v: string, lit1: string, f: string)
    requires Lacks(v, '\n') && !Lacks(lit1, '\n')
    requires StartsWith(f, lit1)
    ensures CutFirst(lit0, lit1, lit0 + v + f) == Some((v, f))
  {
    var s := lit0 + v + f;
    assert s == lit0 + (v + f);
    var t := s[|lit0|..];
    assert t == v + f;
    BreakAfterValue(v, lit1, f);
    assert t[..|v|] == v;
    assert t[|v|..] == f;
  }

  /** Reading a delimited filling gives back exactly the values. */
  lemma {:induction false} ReadFill(lits: seq<string>, vals: seq<string>)
    requires Delimited(lits, vals)
    ensures Read(lits, Fill(lits, vals)) == Some(vals)
    decreases |vals|
  {
    if |vals| == 0 {
    } else if |vals| == 1 {
      assert vals == [vals[0]];
      ReadFillOne(lits, vals[0]);
    } else {
      DelimitedTail(lits, vals);
      ReadFill(lits[1..], vals[1..]);
      CutValue(lits[0], vals[0], lits[1], Fill(lits[1..], vals[1..]));
      assert [vals[0]] + vals[1..] == vals;
    }
  }

  /** Where value `i` starts in `Fill(lits, vals)`: after every literal up to
      `lits[i]` and every earlier value. */
  function Offset(lits: seq<string>, vals: seq<string>, i: nat): nat
    requires |lits| == |vals| + 1
    requires i < |vals|
  {
    if i == 0 then |lits[0]|
    else |lits[0]| + |vals[0]| + Offset(lits[1..], vals[1..], i - 1)
  }

  /** Value `i` of a filling sits at `Offset(lits, vals, i)`. */
  lemma {:induction false} FillAt(lits: seq<string>, vals: seq<string>, i: nat)
    requires |lits| == |vals| + 1
    requires i < |vals|
    ensures var at := Offset(lits, vals, i);
      at + |vals[i]| <= |Fill(lits, vals)| && Fill(lits, vals)[at..at + |vals[i]|] == vals[i]
    decreases i
  {
    var f := Fill(lits[1..], vals[1..]);
    var s := Fill(lits, vals);
    assert s == lits[0] + vals[0] + f;
    if i == 0 {
      assert s[|lits[0]|..|lits[0]| + |vals[0]|] == vals[0];
    } else {
      FillAt(lits[1..], vals[1..], i - 1);
      assert vals[1..][i - 1] == vals[i];
      var at := Offset(lits[1..], vals[1..], i - 1);
      var d := |lits[0]| + |vals[0]|;
      assert s[d + at..d + at + |vals[i]|] == f[at..at + |vals[i]|];
    }
  }

  /** Values appear in their order: value `i` ends before value `j > i`
      begins. */
  lemma {:induction false} OffsetOrder(lits: seq<string>, vals: seq<string>, i: nat, j: nat)
    requires |lits| == |vals| + 1
    requires i < j < |vals|
    ensures Offset(lits, vals, i) + |vals[i]| <= Offset(lits, vals, j)
    decreases i
  {
    if i > 0 {
      OffsetOrder(lits[1..], vals[1..], i - 1, j - 1);
      assert vals[1..][i - 1] == vals[i];
    }
  }
}
