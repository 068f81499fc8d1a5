/** Which dot names stand for the same label after preprocessing. */
module LocalLabels {
  import opened Text
  import opened AsmLexer
  import opened Preprocessor

  /** The preprocessor's context in front of the i-th token. */
  function ContextAt(ts: seq<Token>, i: nat): (c: Context)
    requires i <= |ts|
    ensures Named(c.defines)
  {
    if i == 0 then FRESH else After(ContextAt(ts, i - 1), ts[i - 1])
  }

  /** The name the i-th token gets. */
  function NameAt(ts: seq<Token>, i: nat): string
    requires i < |ts|
  {
    LocalName(ContextAt(ts, i), ts[i].value)
  }

  /** The global label that the i-th token stands under. */
  function LabelBefore(ts: seq<Token>, i: nat): string
    requires i <= |ts|
  {
    if i == 0 then "__global" else if ts[i - 1].kind == Label then ts[i - 1].value else LabelBefore(ts, i - 1)
  }

  /** Resolving a token list uses these contexts. */
  lemma {:induction false} ResolvedGrows(ts: seq<Token>, i: nat)
    requires i < |ts|
    ensures Resolved(ts[..i + 1], FRESH) == Resolved(ts[..i], FRESH) + Renamed(ContextAt(ts, i), ts[i])
  {
    hide Renamed, After;
    ResolvedFrom(ts, 0, i);
    assert ts[0..i + 1] == ts[..i + 1] && ts[0..i] == ts[..i];
  }

  lemma {:induction false} ResolvedFrom(ts: seq<Token>, k: nat, i: nat)
    requires k <= i < |ts|
    ensures Resolved(ts[k..i + 1], ContextAt(ts, k)) == Resolved(ts[k..i], ContextAt(ts, k)) + Renamed(ContextAt(ts, i), ts[i])
    decreases i - k
  {
    hide Renamed, After;
    var s := ts[k..i + 1];
    assert s[1..] == ts[k + 1..i + 1] && s[0] == ts[k];
    if k < i {
      assert ts[k..i][1..] == ts[k + 1..i];
      ResolvedFrom(ts, k + 1, i);
    }
  }

  predicate DistinctLabels(ts: seq<Token>) {
    && (forall i :: 0 <= i < |ts| && ts[i].kind == Label ==> ts[i].value != "__global")
    && (forall i, j :: 0 <= i < j < |ts| && ts[i].kind == Label && ts[j].kind == Label ==> ts[i].value != ts[j].value)
  }

  function FullName(ts: seq<Token>, i: nat): string
    requires i < |ts|
  {
    LabelBefore(ts, i) + "__local_" + Decimal(IndexOf(ContextAt(ts, i).locals, ts[i].value))
  }

  /** No label, local name or generated name is cut short. */
  predicate NothingCut(ts: seq<Token>) {
    forall i :: 0 <= i < |ts| ==>
      && (ts[i].kind == Label ==> |ts[i].value| <= GLOBAL_ROOM)
      && (IsDot(ts[i]) ==> |ts[i].value| <= LOCAL_ROOM && |FullName(ts, i)| <= GLOBAL_ROOM)
  }

  lemma {:induction false} GlobalIsLabel(ts: seq<Token>, i: nat)
    requires i <= |ts| && forall k :: 0 <= k < i && ts[k].kind == Label ==> |ts[k].value| <= GLOBAL_ROOM
    ensures ContextAt(ts, i).global == LabelBefore(ts, i)
  {
    hide ParseDefine;
    if i > 0 {
      GlobalIsLabel(ts, i - 1);
    }
  }

  /** Without a global label in between, names are only added. */
  lemma {:induction false} LocalsGrow(ts: seq<Token>, i: nat, j: nat)
    requires i <= j <= |ts| && forall k :: i <= k < j ==> ts[k].kind != Label
    ensures ContextAt(ts, i).locals <= ContextAt(ts, j).locals && LabelBefore(ts, i) == LabelBefore(ts, j)
    decreases j - i
  {
    hide ParseDefine;
    if i < j {
      LocalsGrow(ts, i, j - 1);
    }
  }

  lemma {:induction false} IndexStays(locals: seq<string>, more: seq<string>, name: string)
    requires locals <= more && name in locals
    ensures IndexOf(more, name) == IndexOf(locals, name) < |locals|
  {
    if locals[0] != name {
      assert locals[1..] <= more[1..] && name in locals[1..];
      IndexStays(locals[1..], more[1..], name);
    }
  }

  /** A name that fits is found again where it was put. */
  lemma MetAgain(c: Context, name: string)
    requires |name| <= LOCAL_ROOM
    ensures name in Noted(c, name).locals && IndexOf(Noted(c, name).locals, name) == IndexOf(c.locals, name)
  {
    if name !in c.locals {
      IndexOfNew(c.locals, name);
    }
  }

  lemma {:induction false} IndexOfNew(locals: seq<string>, name: string)
    requires name !in locals
    ensures IndexOf(locals, name) == |locals| == IndexOf(locals + [name], name)
  {
    if locals != [] {
      assert (locals + [name])[1..] == locals[1..] + [name];
      IndexOfNew(locals[1..], name);
    }
  }

  lemma {:induction false} LabelBeforeIs(ts: seq<Token>, i: nat)
    requires i <= |ts|
    ensures || (LabelBefore(ts, i) == "__global" && forall k :: 0 <= k < i ==> ts[k].kind != Label)
            || (exists k :: 0 <= k < i && ts[k].kind == Label && LabelBefore(ts, i) == ts[k].value
                            && forall m :: k < m < i ==> ts[m].kind != Label)
  {
    if i > 0 && ts[i - 1].kind != Label {
      LabelBeforeIs(ts, i - 1);
    }
  }

  /** With distinct labels, tokens stand under the same one only when none comes between them. */
  lemma SameLabelSameStretch(ts: seq<Token>, i: nat, j: nat)
    requires i <= j <= |ts| && DistinctLabels(ts) && LabelBefore(ts, i) == LabelBefore(ts, j)
    ensures forall k :: i <= k < j ==> ts[k].kind != Label
  {
    LabelBeforeIs(ts, i);
    LabelBeforeIs(ts, j);
  }

  lemma NumbersTellApart(global: string, n: nat, global': string, n': nat)
    requires global + "__local_" + Decimal(n) == global' + "__local_" + Decimal(n')
    ensures global == global' && n == n'
  {
    NumeralReadsBack(global + "__local_", n);
    NumeralReadsBack(global' + "__local_", n');
    assert (global + "__local_")[..|global|] == global;
    assert (global' + "__local_")[..|global'|] == global';
  }

  // ---------- which number a name has ----------

  /** The first token behind the last global label in front of the i-th, the first of all when there is none. */
  function StretchStart(ts: seq<Token>, i: nat): (k: nat)
    requires i <= |ts|
    ensures k <= i && forall m :: k <= m < i ==> ts[m].kind != Label
  {
    if i == 0 then 0 else if ts[i - 1].kind == Label then i else StretchStart(ts, i - 1)
  }

  /** The dot names in a stretch of tokens. */
  function NamesIn(ts: seq<Token>, from: nat, end: nat): (names: set<string>)
    requires from <= end <= |ts|
    ensures forall m :: from <= m < end && IsDot(ts[m]) ==> ts[m].value in names
    decreases end
  {
    if from == end then {}
    else NamesIn(ts, from, end - 1) + if IsDot(ts[end - 1]) then {ts[end - 1].value} else {}
  }

  /** Where a name first stands in a stretch, its end when it does not. */
  function FirstAt(ts: seq<Token>, from: nat, end: nat, name: string): (f: nat)
    requires from <= end <= |ts|
    ensures from <= f <= end && name !in NamesIn(ts, from, f)
    ensures f < end ==> IsDot(ts[f]) && ts[f].value == name
    decreases end
  {
    if from == end || name !in NamesIn(ts, from, end) then end else FirstAt(ts, from, end - 1, name)
  }

  /** A name's rank: how many other names stand before its first appearance behind the last global label. */
  function Rank(ts: seq<Token>, i: nat): nat
    requires i < |ts|
  {
    |NamesIn(ts, StretchStart(ts, i), FirstAt(ts, StretchStart(ts, i), i, ts[i].value))|
  }

  predicate NamesFit(ts: seq<Token>) {
    forall i :: 0 <= i < |ts| && IsDot(ts[i]) ==> |ts[i].value| <= LOCAL_ROOM
  }

  lemma {:induction false} StretchEmpty(ts: seq<Token>, i: nat)
    requires i <= |ts|
    ensures ContextAt(ts, StretchStart(ts, i)).locals == []
    ensures LabelBefore(ts, StretchStart(ts, i)) == LabelBefore(ts, i)
  {
    hide ParseDefine;
    if i > 0 && ts[i - 1].kind != Label {
      StretchEmpty(ts, i - 1);
    }
  }

  /** The table holds each name of the stretch once, in the order of first appearance. */
  lemma {:induction false} TableIsNames(ts: seq<Token>, from: nat, end: nat)
    requires from <= end <= |ts| && NamesFit(ts) && ContextAt(ts, from).locals == []
    requires forall m :: from <= m < end ==> ts[m].kind != Label
    ensures |ContextAt(ts, end).locals| == |NamesIn(ts, from, end)|
    ensures forall name :: name in ContextAt(ts, end).locals <==> name in NamesIn(ts, from, end)
    decreases end
  {
    hide ContextAt, NamesIn, IsDot;
    NamesGrow(ts, from, end);
    if from < end {
      TableIsNames(ts, from, end - 1);
      TableGrows(ts, end);
      var before, names, name := ContextAt(ts, end - 1).locals, NamesIn(ts, from, end - 1), ts[end - 1].value;
      if IsDot(ts[end - 1]) && name in names { assert names + {name} == names; }
    }
  }

  lemma NamesGrow(ts: seq<Token>, from: nat, end: nat)
    requires from <= end <= |ts|
    ensures from == end ==> NamesIn(ts, from, end) == {}
    ensures from < end ==> NamesIn(ts, from, end)
                           == NamesIn(ts, from, end - 1) + if IsDot(ts[end - 1]) then {ts[end - 1].value} else {}
  {
    hide IsDot;
  }

  lemma TableGrows(ts: seq<Token>, i: nat)
    requires 0 < i <= |ts| && ts[i - 1].kind != Label && NamesFit(ts)
    ensures var before, after, t := ContextAt(ts, i - 1).locals, ContextAt(ts, i).locals, ts[i - 1];
            after == if IsDot(t) && t.value !in before then before + [t.value] else before
  {
    hide ParseDefine;
  }

  /** So a name's number in the table is its rank. */
  lemma IndexIsRank(ts: seq<Token>, i: nat)
    requires i < |ts| && NamesFit(ts)
    ensures IndexOf(ContextAt(ts, i).locals, ts[i].value) == Rank(ts, i)
  {
    hide *;
    var from := StretchStart(ts, i);
    var f := FirstAt(ts, from, i, ts[i].value);
    StretchEmpty(ts, i);
    TableIsNames(ts, from, f);
    IndexOfNew(ContextAt(ts, f).locals, ts[i].value);
    if f < i {
      DotStays(ts, f, i);
    }
    RankIs(ts, i, f);
  }

  lemma RankIs(ts: seq<Token>, i: nat, f: nat)
    requires i < |ts| && f == FirstAt(ts, StretchStart(ts, i), i, ts[i].value)
    ensures Rank(ts, i) == |NamesIn(ts, StretchStart(ts, i), f)|
  {
    hide NamesIn, FirstAt, StretchStart;
  }

  lemma Fits(ts: seq<Token>, i: nat)
    requires i < |ts| && NamesFit(ts) && IsDot(ts[i])
    ensures |ts[i].value| <= LOCAL_ROOM
  {
  }

  /** Until the next global label a name keeps the number it got. */
  lemma DotStays(ts: seq<Token>, f: nat, i: nat)
    requires f < i <= |ts| && IsDot(ts[f]) && NamesFit(ts) && forall m :: f <= m < i ==> ts[m].kind != Label
    ensures IndexOf(ContextAt(ts, i).locals, ts[f].value) == IndexOf(ContextAt(ts, f).locals, ts[f].value)
    ensures IndexOf(ContextAt(ts, i).locals, ts[f].value) < |ContextAt(ts, i).locals|
  {
    hide *;
    Fits(ts, f);
    DotNotes(ts, f);
    MetAgain(ContextAt(ts, f), ts[f].value);
    LocalsGrow(ts, f + 1, i);
    IndexStays(ContextAt(ts, f + 1).locals, ContextAt(ts, i).locals, ts[f].value);
  }

  /** Exactly when two dot names get the same global one: under labels of one name, with one rank. */
  lemma SameRankSameLabel(ts: seq<Token>, i: nat, j: nat)
    requires i < |ts| && j < |ts| && IsDot(ts[i]) && IsDot(ts[j]) && NothingCut(ts)
    ensures NameAt(ts, i) == NameAt(ts, j) <==> LabelBefore(ts, i) == LabelBefore(ts, j) && Rank(ts, i) == Rank(ts, j)
  {
    NameIs(ts, i);
    NameIs(ts, j);
    hide *;
    if NameAt(ts, i) == NameAt(ts, j) {
      NumbersTellApart(LabelBefore(ts, i), Rank(ts, i), LabelBefore(ts, j), Rank(ts, j));
    }
  }

  lemma NameIs(ts: seq<Token>, i: nat)
    requires i < |ts| && IsDot(ts[i]) && NothingCut(ts)
    ensures NameAt(ts, i) == LabelBefore(ts, i) + "__local_" + Decimal(Rank(ts, i))
  {
    GlobalIsLabel(ts, i);
    IndexIsRank(ts, i);
    assert |FullName(ts, i)| <= GLOBAL_ROOM;
    hide Rank, Decimal, IndexOf, ContextAt, LabelBefore;
  }

  /** With distinct labels: references or definitions, two dot names stand for the same label just when they are the same
      name under the same global label. */
  lemma SameNameSameLabel(ts: seq<Token>, i: nat, j: nat)
    requires i < j < |ts| && IsDot(ts[i]) && IsDot(ts[j]) && DistinctLabels(ts) && NothingCut(ts)
    ensures NameAt(ts, i) == NameAt(ts, j) <==> ts[i].value == ts[j].value && LabelBefore(ts, i) == LabelBefore(ts, j)
  {
    assert NamesFit(ts);
    hide *;
    SameRankSameLabel(ts, i, j);
    IndexIsRank(ts, i);
    IndexIsRank(ts, j);
    if LabelBefore(ts, i) == LabelBefore(ts, j) {
      FoundAgain(ts, i, j);
    }
  }

  /** Under one label, one number is one name. */
  lemma FoundAgain(ts: seq<Token>, i: nat, j: nat)
    requires i < j < |ts| && IsDot(ts[i]) && DistinctLabels(ts) && NamesFit(ts)
    requires LabelBefore(ts, i) == LabelBefore(ts, j)
    ensures IndexOf(ContextAt(ts, i).locals, ts[i].value) == IndexOf(ContextAt(ts, j).locals, ts[j].value)
            <==> ts[i].value == ts[j].value
  {
    hide *;
    SameLabelSameStretch(ts, i, j);
    DotStays(ts, i, j);
    OneIndexOneName(ContextAt(ts, j).locals, ts[i].value, ts[j].value);
  }

  lemma DotNotes(ts: seq<Token>, i: nat)
    requires i < |ts| && IsDot(ts[i])
    ensures ContextAt(ts, i + 1) == Noted(ContextAt(ts, i), ts[i].value)
  {
  }

  lemma OneIndexOneName(locals: seq<string>, name: string, other: string)
    requires IndexOf(locals, name) < |locals|
    ensures IndexOf(locals, name) == IndexOf(locals, other) <==> name == other
  {
  }

  /** Whenever a label is used twice, the dot names directly behind its two uses get one global name, whatever names they
      are. */
  lemma RepeatedLabelClashes(ts: seq<Token>, i: nat, j: nat)
    requires 0 < i < |ts| && 0 < j < |ts| && IsDot(ts[i]) && IsDot(ts[j]) && NothingCut(ts)
    requires ts[i - 1].kind == Label && ts[j - 1].kind == Label && ts[i - 1].value == ts[j - 1].value
    ensures NameAt(ts, i) == NameAt(ts, j)
  {
    SameRankSameLabel(ts, i, j);
    assert Rank(ts, i) == 0 && Rank(ts, j) == 0;
  }

  /** A name met twice in a row keeps its label exactly when it fits its slot: a longer one is stored cut short, not
      recognised, and numbered afresh. */
  lemma RecognisedWhenItFits(c: Context, name: string)
    requires forall l :: l in c.locals ==> |l| <= LOCAL_ROOM
    requires |c.global + "__local_" + Decimal(|c.locals|)| <= GLOBAL_ROOM
    requires |c.global + "__local_" + Decimal(|c.locals| + 1)| <= GLOBAL_ROOM
    ensures LocalName(Noted(c, name), name) == LocalName(c, name) <==> |name| <= LOCAL_ROOM
  {
    if |name| <= LOCAL_ROOM {
      MetAgain(c, name);
    } else {
      assert name !in c.locals && name !in Noted(c, name).locals;
      assert IndexOf(c.locals, name) == |c.locals| && IndexOf(Noted(c, name).locals, name) == |c.locals| + 1;
      if LocalName(Noted(c, name), name) == LocalName(c, name) {
        NumbersTellApart(c.global, |c.locals| + 1, c.global, |c.locals|);
      }
    }
  }
}
