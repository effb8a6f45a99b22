/**
 * backend/staticfiles/js/skill_formset.js and
 * backend/staticfiles/js/certification_formset.js: the two scripts share
 * one add/remove/reindex scheme and differ only in the card title and in
 * which select and text values count as "no data".  The page is a sequence
 * of cards, each a sequence of form elements; the hidden TOTAL_FORMS input
 * is an integer field.
 */
module Formset {
  import opened Text
  import opened Wrappers
  import opened Nodes

  // ------------------------------------------------------------ first-match renumbering

  /** The end of the run of decimal digits that starts at `k`. */
  function DigitRunEnd(s: string, k: nat): (j: nat)
    requires k <= |s|
    ensures k <= j <= |s| && (j < |s| ==> !IsDigit(s[j]))
    ensures forall t :: k <= t < j ==> IsDigit(s[t])
    decreases |s| - k
  {
    if k == |s| || !IsDigit(s[k]) then k else DigitRunEnd(s, k + 1)
  }

  /** `s` matches `-\d+-` (with `d` = '-') or `_\d+_` (with `d` = '_') starting at `i`. */
  predicate MatchAt(s: string, i: nat, d: char) {
    i < |s| && s[i] == d &&
    var j := DigitRunEnd(s, i + 1); j > i + 1 && j < |s| && s[j] == d
  }

  /** The leftmost match at or after `k`. */
  function FirstMatchFrom(s: string, d: char, k: nat): (r: Option<nat>)
    ensures r.None? ==> forall t :: k <= t < |s| ==> !MatchAt(s, t, d)
    ensures r.Some? ==> k <= r.value && MatchAt(s, r.value, d) && forall t :: k <= t < r.value ==> !MatchAt(s, t, d)
    decreases |s| - k
  {
    if k >= |s| then None
    else if MatchAt(s, k, d) then Some(k)
    else FirstMatchFrom(s, d, k + 1)
  }

  /**
   * `s.replace(/-\d+-/, `-${n}-`)` and `s.replace(/_\d+_/, `_${n}_`)`: the
   * leftmost match, if any, has its digits replaced by the decimal form of
   * `n`.  The greedy `\d+` takes the whole run of digits, so a match is
   * the delimiter, a maximal non-empty digit run, and the delimiter again.
   */
  function ReplaceFirst(s: string, d: char, n: nat): (r: string)
    ensures FirstMatchFrom(s, d, 0).None? ==> r == s
  {
    match FirstMatchFrom(s, d, 0)
    case None => s
    case Some(i) => s[..i] + ([d] + NatStr(n) + [d]) + s[DigitRunEnd(s, i + 1) + 1..]
  }

  /** The run of digits ends at the same place in two strings that agree up to a non-digit. */
  lemma {:induction false} DigitRunAgree(s: string, r: string, k: nat, p: nat)
    requires k <= p < |s| && p < |r| && s[..p + 1] == r[..p + 1] && !IsDigit(s[p])
    ensures DigitRunEnd(s, k) == DigitRunEnd(r, k) <= p
    decreases p - k
  {
    assert s[k] == s[..p + 1][k] == r[..p + 1][k] == r[k];
    if k < p && IsDigit(s[k]) {
      DigitRunAgree(s, r, k + 1, p);
    }
  }

  /** A match at `i` with none before it is the leftmost one. */
  lemma {:induction false} FirstMatchIs(s: string, d: char, k: nat, i: nat)
    requires k <= i && MatchAt(s, i, d) && forall t :: k <= t < i ==> !MatchAt(s, t, d)
    ensures FirstMatchFrom(s, d, k) == Some(i)
    decreases i - k
  {
    if k < i { FirstMatchIs(s, d, k + 1, i); }
  }

  /**
   * Renumbering twice is renumbering once with the second number: the
   * rewritten digits sit at the same leftmost match.  In particular a
   * second pass with the same number changes nothing.
   */
  lemma ReplaceFirstTwice(s: string, d: char, n: nat, m: nat)
    requires !IsDigit(d)
    ensures ReplaceFirst(ReplaceFirst(s, d, n), d, m) == ReplaceFirst(s, d, m)
  {
    var fm := FirstMatchFrom(s, d, 0);
    if fm.Some? {
      var i := fm.value;
      var j := DigitRunEnd(s, i + 1);
      var pre, mid, suf := s[..i], [d] + NatStr(n) + [d], s[j + 1..];
      var r := pre + mid + suf;
      ReplacedMatch(s, d, n, i);
      ReplaceFirstAt(s, d, n, i);
      ReplaceFirstAt(s, d, m, i);
      ReplaceFirstAt(r, d, m, i);
      SplitThree(pre, mid, suf);
    }
  }

  lemma ReplaceFirstAt(s: string, d: char, n: nat, i: nat)
    requires FirstMatchFrom(s, d, 0) == Some(i)
    ensures ReplaceFirst(s, d, n) == s[..i] + ([d] + NatStr(n) + [d]) + s[DigitRunEnd(s, i + 1) + 1..]
  {
  }

  lemma SplitThree(pre: string, mid: string, suf: string)
    ensures var r := pre + mid + suf; r[..|pre|] == pre && r[|pre| + |mid|..] == suf
  {
  }

  /** After the rewrite, the leftmost match is still at `i` and spans the new digits. */
  lemma ReplacedMatch(s: string, d: char, n: nat, i: nat)
    requires !IsDigit(d) && FirstMatchFrom(s, d, 0) == Some(i)
    ensures var r := s[..i] + ([d] + NatStr(n) + [d]) + s[DigitRunEnd(s, i + 1) + 1..];
      FirstMatchFrom(r, d, 0) == Some(i) && DigitRunEnd(r, i + 1) == i + 1 + |NatStr(n)|
  {
    var j := DigitRunEnd(s, i + 1);
    var ds := NatStr(n);
    var r := s[..i] + ([d] + ds + [d]) + s[j + 1..];
    var e := i + 1 + |ds|;
    assert r[i] == d && r[e] == d;
    assert r[..i + 1] == s[..i + 1];
    assert forall t :: i + 1 <= t < e ==> r[t] == ds[t - i - 1];
    RunOverDigits(r, i + 1, e);
    assert MatchAt(r, i, d);
    NoEarlierMatch(s, r, d, i);
    FirstMatchIs(r, d, 0, i);
  }

  /** A string that agrees with `s` up to the delimiter at `i` has no match before `i` when `s` has none. */
  lemma NoEarlierMatch(s: string, r: string, d: char, i: nat)
    requires i < |s| && i < |r| && s[..i + 1] == r[..i + 1] && s[i] == d && !IsDigit(d)
    requires forall t :: 0 <= t < i ==> !MatchAt(s, t, d)
    ensures forall t :: 0 <= t < i ==> !MatchAt(r, t, d)
  {
    forall t | 0 <= t < i ensures !MatchAt(r, t, d) {
      assert !MatchAt(s, t, d);
      assert s[t] == s[..i + 1][t] == r[..i + 1][t] == r[t];
      if r[t] == d {
        DigitRunAgree(s, r, t + 1, i);
        var q := DigitRunEnd(s, t + 1);
        assert s[q] == s[..i + 1][q] == r[..i + 1][q] == r[q];
      }
    }
  }

  /** The run of digits starting at `k` ends at `e` when `s[k..e]` are digits and `s[e]` is not. */
  lemma {:induction false} RunOverDigits(s: string, k: nat, e: nat)
    requires k <= e < |s| && !IsDigit(s[e]) && forall t :: k <= t < e ==> IsDigit(s[t])
    ensures DigitRunEnd(s, k) == e
    decreases e - k
  {
    if k < e { RunOverDigits(s, k + 1, e); }
  }

  // ------------------------------------------------------------ cards

  datatype ElementKind = Checkbox | Radio | Hidden | Select | TextInput | TextArea | Label

  /** One `input`, `select`, `textarea` or `label`; a label has no name or value. */
  datatype Element = Element(kind: ElementKind, name: string, id: string, htmlFor: string,
                             value: string, checked: bool, placeholder: string)

  /**
   * A `.portfolio-form-section`: its title text (absent when the card has no
   * title element), its elements in document order, and the visibility of
   * its remove button (absent when it has none).
   */
  datatype Card = Card(title: Option<string>, elements: seq<Element>, removeButton: Option<bool>)

  datatype FormsetKind = SkillFormset | CertificationFormset

  function TitleWord(k: FormsetKind): string {
    if k == SkillFormset then "Skill" else "Certification"
  }

  /** "Skill #n" / "Certification #n" for the card at position `idx`. */
  function Title(k: FormsetKind, idx: nat): (t: string)
    ensures t == TitleWord(k) + " #" + NatStr(idx + 1)
  {
    TitleWord(k) + " #" + NatStr(idx + 1)
  }

  const Months: set<string> := {"January", "February", "March", "April", "May", "June", "July",
                                "August", "September", "October", "November", "December"}

  /** Select values that do not count as data. */
  function SelectDefaults(k: FormsetKind): set<string> {
    if k == SkillFormset then {"", "Beginner", "Intermediate", "Advanced", "Expert"}
    else {"", "2025"} + Months
  }

  const SkillHint := "e.g., Python, JavaScript, Leadership"
  const CertificationNameHint := "e.g. AWS Certified Solutions Architect"
  const CertificationIssuerHint := "e.g. Amazon Web Services"
  const CertificationDescriptionHint := "Briefly describe what this certification covers and its significance."

  /** Text values that do not count as data, besides the element's own placeholder. */
  function TextDefaults(k: FormsetKind): set<string> {
    if k == SkillFormset then {"", SkillHint}
    else {"", CertificationNameHint, CertificationIssuerHint, CertificationDescriptionHint}
  }

  /** One element's part of `updateRemoveButtonVisibility`'s `some` test. */
  predicate ElementHasData(k: FormsetKind, e: Element) {
    match e.kind
    case Label => false
    case Checkbox => e.checked
    case Radio => e.checked
    case Hidden => false
    case Select => e.value !in SelectDefaults(k)
    case _ => var v := Strip(e.value); v !in TextDefaults(k) && v != e.placeholder
  }

  predicate HasData(k: FormsetKind, c: Card) {
    exists t :: 0 <= t < |c.elements| && ElementHasData(k, c.elements[t])
  }

  /** `updateRemoveButtonVisibility`: the button shows iff the card holds data. */
  function UpdateRemoveButton(k: FormsetKind, c: Card): (r: Card)
    ensures r.title == c.title && r.elements == c.elements
    ensures c.removeButton.None? ==> r.removeButton.None?
    ensures c.removeButton.Some? ==> r.removeButton == Some(HasData(k, c))
  {
    if c.removeButton.None? then c else c.(removeButton := Some(HasData(k, c)))
  }

  /** The attribute rewrites of one element for the card at `idx`. */
  function ReindexElement(e: Element, idx: nat): (r: Element)
    ensures r.kind == e.kind && r.value == e.value && r.checked == e.checked && r.placeholder == e.placeholder
    ensures r.name == (if e.name != [] then ReplaceFirst(e.name, '-', idx) else [])
    ensures r.id == (if e.id != [] then ReplaceFirst(e.id, '_', idx) else [])
    ensures r.htmlFor == (if e.htmlFor != [] then ReplaceFirst(e.htmlFor, '_', idx) else [])
  {
    var name := if e.name != [] then ReplaceFirst(e.name, '-', idx) else e.name;
    var id := if e.id != [] then ReplaceFirst(e.id, '_', idx) else e.id;
    var htmlFor := if e.htmlFor != [] then ReplaceFirst(e.htmlFor, '_', idx) else e.htmlFor;
    e.(name := name, id := id, htmlFor := htmlFor)
  }

  /** The body of `reindexForms`' `forEach` for the card at `idx`. */
  function ReindexCard(k: FormsetKind, c: Card, idx: nat): (r: Card)
    ensures c.title.Some? <==> r.title.Some?
    ensures r.title.Some? ==> r.title.value == Title(k, idx)
    ensures |r.elements| == |c.elements|
    ensures forall t :: 0 <= t < |c.elements| ==> r.elements[t] == ReindexElement(c.elements[t], idx)
    ensures c.removeButton.Some? <==> r.removeButton.Some?
    ensures r.removeButton.Some? ==> r.removeButton.value == HasData(k, c)
  {
    var els := seq(|c.elements|, t requires 0 <= t < |c.elements| => ReindexElement(c.elements[t], idx));
    var title := if c.title.Some? then Some(Title(k, idx)) else None;
    var d := c.(title := title, elements := els);
    ReindexedHasData(k, c, d, idx);
    UpdateRemoveButton(k, d)
  }

  /** Renumbering leaves every value, check and placeholder, so whether a card holds data. */
  lemma ReindexedHasData(k: FormsetKind, c: Card, d: Card, idx: nat)
    requires |d.elements| == |c.elements|
    requires forall t :: 0 <= t < |c.elements| ==> d.elements[t] == ReindexElement(c.elements[t], idx)
    ensures HasData(k, d) == HasData(k, c)
  {
    if HasData(k, c) {
      var t :| 0 <= t < |c.elements| && ElementHasData(k, c.elements[t]);
      assert ElementHasData(k, d.elements[t]);
    }
    if HasData(k, d) {
      var t :| 0 <= t < |d.elements| && ElementHasData(k, d.elements[t]);
      assert ElementHasData(k, c.elements[t]);
    }
  }

  /** Every card reindexed at its own position. */
  function ReindexAll(k: FormsetKind, cs: seq<Card>): (r: seq<Card>)
    ensures |r| == |cs| && forall i :: 0 <= i < |cs| ==> r[i] == ReindexCard(k, cs[i], i)
  {
    seq(|cs|, i requires 0 <= i < |cs| => ReindexCard(k, cs[i], i))
  }

  /** Reindexing a card a second time at the same position changes nothing. */
  lemma ReindexCardTwice(k: FormsetKind, c: Card, idx: nat)
    ensures ReindexCard(k, ReindexCard(k, c, idx), idx) == ReindexCard(k, c, idx)
  {
    var r := ReindexCard(k, c, idx);
    var rr := ReindexCard(k, r, idx);
    forall t | 0 <= t < |c.elements| ensures rr.elements[t] == r.elements[t] {
      var e := c.elements[t];
      ReplaceFirstTwice(e.name, '-', idx, idx);
      ReplaceFirstTwice(e.id, '_', idx, idx);
      ReplaceFirstTwice(e.htmlFor, '_', idx, idx);
      if e.name != [] { ReplaceNonEmpty(e.name, '-', idx); }
      if e.id != [] { ReplaceNonEmpty(e.id, '_', idx); }
      if e.htmlFor != [] { ReplaceNonEmpty(e.htmlFor, '_', idx); }
    }
    assert rr.elements == r.elements;
    if c.removeButton.Some? {
      assert HasData(k, r) == HasData(k, c) by {
        assert forall t :: 0 <= t < |c.elements| ==> ElementHasData(k, r.elements[t]) == ElementHasData(k, c.elements[t]);
      }
    }
  }

  lemma ReplaceNonEmpty(s: string, d: char, n: nat)
    requires s != []
    ensures ReplaceFirst(s, d, n) != []
  {
    var fm := FirstMatchFrom(s, d, 0);
    if fm.Some? {
      assert |ReplaceFirst(s, d, n)| >= 2;
    }
  }

  /** `reindexForms` is idempotent: running it on its own result changes no card. */
  lemma ReindexAllTwice(k: FormsetKind, cs: seq<Card>)
    ensures ReindexAll(k, ReindexAll(k, cs)) == ReindexAll(k, cs)
  {
    forall i | 0 <= i < |cs| ensures ReindexAll(k, ReindexAll(k, cs))[i] == ReindexAll(k, cs)[i] {
      ReindexCardTwice(k, cs[i], i);
    }
  }

  /** The clone made by the add handler: boxes unchecked, visible values emptied, hidden inputs kept. */
  function ClearElement(e: Element): (r: Element)
    ensures e.kind == Checkbox || e.kind == Radio ==> r == e.(checked := false)
    ensures e.kind == Hidden || e.kind == Label ==> r == e
    ensures e.kind == Select || e.kind == TextInput || e.kind == TextArea ==> r == e.(value := [])
  {
    match e.kind
    case Label => e
    case Checkbox => e.(checked := false)
    case Radio => e.(checked := false)
    case Hidden => e
    case _ => e.(value := [])
  }

  function Cleared(c: Card): (r: Card)
    ensures r.title == c.title && |r.elements| == |c.elements|
    ensures forall t :: 0 <= t < |c.elements| ==> r.elements[t] == ClearElement(c.elements[t])
    ensures c.removeButton.Some? <==> r.removeButton.Some?
  {
    Card(c.title, seq(|c.elements|, t requires 0 <= t < |c.elements| => ClearElement(c.elements[t])),
         if c.removeButton.Some? then Some(false) else None)
  }

  /** A freshly cleared clone holds no data, so its remove button stays hidden after the reindex. */
  lemma ClearedHasNoData(k: FormsetKind, c: Card)
    ensures !HasData(k, Cleared(c))
  {
    var r := Cleared(c);
    forall t | 0 <= t < |r.elements| ensures !ElementHasData(k, r.elements[t]) {
      var e := r.elements[t];
      if e.kind == Select || e.kind == TextInput || e.kind == TextArea {
        assert e.value == [];
        assert Strip(e.value) == [];
      }
    }
  }

  // ------------------------------------------------------------ removal behind the fade-out timer

  /**
   * The forms container between events: its cards, the DOM node each card
   * is (`nodes[i]` is the node of `cards[i]`), and the nodes whose 300 ms
   * fade-out timer is running.  Every timer has the same delay, so they
   * fire in the order they were set, which is the order of `fading`.
   */
  datatype Container = Container(cards: seq<Card>, nodes: seq<nat>, fading: seq<nat>)

  /**
   * The remove click on card `k` as written: the guard counts every card
   * in the container, the ones already fading out included, and a card
   * that passes it has its removal timer set.
   */
  function ClickAsWritten(c: Container, k: nat): (r: Container)
    requires k < |c.nodes|
    ensures |c.cards| <= 1 ==> r == c
    ensures |c.cards| > 1 ==> r == c.(fading := c.fading + [c.nodes[k]])
  {
    if |c.cards| > 1 then c.(fading := c.fading + [c.nodes[k]]) else c
  }

  /**
   * The oldest timer's callback: `card.remove()`, which does nothing once
   * the node has already left the container, then `reindexForms()`.
   */
  function Fire(k: FormsetKind, c: Container): (r: Container)
    requires c.fading != [] && |c.nodes| == |c.cards|
    ensures r.fading == c.fading[1..] && |r.nodes| == |r.cards|
    ensures c.fading[0] !in c.nodes ==> r.nodes == c.nodes && r.cards == ReindexAll(k, c.cards)
    ensures c.fading[0] in c.nodes ==>
      |r.cards| == |c.cards| - 1 &&
      exists i :: 0 <= i < |c.nodes| && c.nodes[i] == c.fading[0] &&
        r.nodes == Without(c.nodes, i) && r.cards == ReindexAll(k, Without(c.cards, i))
  {
    match PositionOf(c.nodes, c.fading[0])
    case None => Container(ReindexAll(k, c.cards), c.nodes, c.fading[1..])
    case Some(i) => Container(ReindexAll(k, Without(c.cards, i)), Without(c.nodes, i), c.fading[1..])
  }

  /**
   * Two cards, both remove buttons clicked within 300 ms: each click sees
   * two cards and passes the guard, and the two timers then leave the
   * container empty, after which the add handler has no card to clone.
   */
  lemma RemoveRaceEmptiesContainer(k: FormsetKind, a: Card, b: Card)
    ensures var clicked := ClickAsWritten(ClickAsWritten(Container([a, b], [0, 1], []), 0), 1);
      clicked.fading == [0, 1] && Fire(k, Fire(k, clicked)).cards == []
  {
    var clicked := ClickAsWritten(ClickAsWritten(Container([a, b], [0, 1], []), 0), 1);
    assert clicked == Container([a, b], [0, 1], [0, 1]);
    var once := Fire(k, clicked);
    assert PositionOf([0, 1], 0) == Some(0);
    assert once.nodes == [1];
    assert PositionOf([1], 1) == Some(0);
  }

  /**
   * The click as the "At least one entry required" message intends it: a
   * card already fading out ignores further clicks, and a card starts
   * fading only while at least one card that is not fading will remain.
   */
  function Click(c: Container, k: nat): (r: Container)
    requires k < |c.nodes|
    ensures r.cards == c.cards && r.nodes == c.nodes
    ensures r.fading == c.fading || r.fading == c.fading + [c.nodes[k]]
    ensures r.fading != c.fading <==> c.nodes[k] !in c.fading && |c.cards| - |c.fading| > 1
  {
    if c.nodes[k] !in c.fading && |c.cards| - |c.fading| > 1 then c.(fading := c.fading + [c.nodes[k]]) else c
  }

  /**
   * A well-formed container: one distinct node per card, every running
   * timer for a distinct card still in it, and some card not fading.
   */
  predicate Steady(c: Container) {
    |c.nodes| == |c.cards| && Distinct(c.nodes) && Distinct(c.fading) &&
    (forall n :: n in c.fading ==> n in c.nodes) &&
    (c.fading != [] ==> |c.fading| < |c.cards|)
  }

  /** The corrected click keeps the container well formed. */
  lemma ClickKeepsSteady(c: Container, k: nat)
    requires Steady(c) && k < |c.nodes|
    ensures Steady(Click(c, k))
  {
  }

  /**
   * With the corrected click, each timer removes its own card, which is
   * still there, and the container never loses its last card.
   */
  lemma FireKeepsSteady(k: FormsetKind, c: Container)
    requires Steady(c) && c.fading != []
    ensures var r := Fire(k, c); Steady(r) && |r.cards| == |c.cards| - 1 >= 1
    ensures c.fading[0] !in Fire(k, c).nodes
  {
    var n := c.fading[0];
    assert n in c.fading;
    var i := PositionOf(c.nodes, n).value;
    var r := Fire(k, c);
    assert r.nodes == Without(c.nodes, i);
    WithoutDistinct(c.nodes, i);
    forall m | m in r.fading ensures m in r.nodes {
      assert m != n && m in c.fading;
      WithoutKeeps(c.nodes, i, m);
    }
  }

  /** Two clicks on a two-card container: the second one is refused, so one card stays. */
  lemma NoRaceWithGuard(k: FormsetKind, a: Card, b: Card)
    ensures var clicked := Click(Click(Container([a, b], [0, 1], []), 0), 1);
      clicked.fading == [0] && |Fire(k, clicked).cards| == 1
  {
    var c := Container([a, b], [0, 1], []);
    FireKeepsSteady(k, Click(c, 0));
  }

  class Formset {
    const kind: FormsetKind
    /** The cards in document order. */
    var cards: seq<Card>
    /** The value of the management form's TOTAL_FORMS input. */
    var totalForms: int
    /** The DOM node of each card, parallel to `cards`. */
    var nodes: seq<nat>
    /** A node no card has been given yet. */
    var nextNode: nat
    /** The nodes whose fade-out timer is running, oldest first. */
    var fading: seq<nat>

    ghost predicate Valid()
      reads this
    {
      Steady(Container(cards, nodes, fading)) && forall n :: n in nodes ==> n < nextNode
    }

    /** The page as served, after the initial `reindexForms` and the hiding of the first remove button. */
    constructor(kind: FormsetKind, served: seq<Card>, servedTotal: int)
      ensures Valid() && fading == []
      ensures this.kind == kind && totalForms == |served|
      ensures |cards| == |served|
      ensures forall i :: 1 <= i < |served| ==> cards[i] == ReindexCard(kind, served[i], i)
      ensures served != [] ==> cards[0] == (var c := ReindexCard(kind, served[0], 0);
        if c.removeButton.Some? then c.(removeButton := Some(false)) else c)
    {
      this.kind := kind;
      cards := served;
      totalForms := servedTotal;
      nodes := seq(|served|, i requires 0 <= i < |served| => i);
      nextNode := |served|;
      fading := [];
      new;
      Reindex();
      if cards != [] && cards[0].removeButton.Some? {
        cards := cards[0 := cards[0].(removeButton := Some(false))];
      }
    }

    /** `reindexForms`. */
    method Reindex()
      modifies this
      ensures cards == ReindexAll(kind, old(cards))
      ensures totalForms == |cards|
      ensures nodes == old(nodes) && nextNode == old(nextNode) && fading == old(fading)
    {
      var i := 0;
      while i < |cards|
        invariant 0 <= i <= |cards| == |old(cards)|
        invariant forall t :: 0 <= t < i ==> cards[t] == ReindexCard(kind, old(cards)[t], t)
        invariant forall t :: i <= t < |cards| ==> cards[t] == old(cards)[t]
        invariant nodes == old(nodes) && nextNode == old(nextNode) && fading == old(fading)
      {
        cards := cards[i := ReindexCard(kind, cards[i], i)];
        i := i + 1;
      }
      totalForms := |cards|;
    }

    /**
     * The add handler: clone the last card, clear it, hide its remove
     * button, append it and reindex.  With no card there is nothing to
     * clone and the page is unchanged.
     */
    method Add()
      requires Valid()
      modifies this
      ensures Valid() && fading == old(fading)
      ensures old(cards) == [] ==> cards == old(cards) && totalForms == old(totalForms) && nodes == old(nodes)
      ensures old(cards) != [] ==> cards == ReindexAll(kind, old(cards) + [Cleared(old(cards)[|old(cards)| - 1])])
      ensures old(cards) != [] ==> totalForms == |old(cards)| + 1 && nodes == old(nodes) + [old(nextNode)]
    {
      if cards == [] {
        return;
      }
      var clone := Cleared(cards[|cards| - 1]);
      assert nextNode !in nodes;
      cards := cards + [clone];
      nodes := nodes + [nextNode];
      nextNode := nextNode + 1;
      Reindex();
    }

    /**
     * The remove click on card `k`, with the corrected guard: the card
     * fades and its removal timer is set only when another card that is
     * not fading will remain; otherwise the page is left as it is.
     */
    method ClickRemove(k: nat)
      requires Valid() && k < |cards|
      modifies this
      ensures Valid()
      ensures Container(cards, nodes, fading) == Click(Container(old(cards), old(nodes), old(fading)), k)
      ensures totalForms == old(totalForms) && nextNode == old(nextNode)
    {
      if nodes[k] !in fading && |cards| - |fading| > 1 {
        fading := fading + [nodes[k]];
      }
      ClickKeepsSteady(Container(old(cards), old(nodes), old(fading)), k);
    }

    /** The oldest removal timer fires: its card leaves the page and the rest are reindexed. */
    method RemovalFires()
      requires Valid() && fading != []
      modifies this
      ensures Valid() && |cards| >= 1 && old(fading)[0] !in nodes
      ensures Container(cards, nodes, fading) == Fire(kind, Container(old(cards), old(nodes), old(fading)))
      ensures totalForms == |cards| && nextNode == old(nextNode)
    {
      ghost var before := Container(cards, nodes, fading);
      FireKeepsSteady(kind, before);
      assert fading[0] in fading;
      var i := PositionOf(nodes, fading[0]).value;
      WithoutSubset(nodes, i);
      cards := Without(cards, i);
      nodes := Without(nodes, i);
      fading := fading[1..];
      Reindex();
    }

    /** The `input`/`change` listeners: the edited card's remove button follows its data. */
    method Refresh(k: nat)
      requires Valid() && k < |cards|
      modifies this
      ensures Valid()
      ensures cards == old(cards)[k := UpdateRemoveButton(kind, old(cards)[k])]
      ensures totalForms == old(totalForms) && nodes == old(nodes) && fading == old(fading)
    {
      cards := cards[k := UpdateRemoveButton(kind, cards[k])];
    }
  }

  /** After an add, the new last card is the cleared clone, titled and renumbered at its position, with its remove button hidden. */
  lemma AddedCard(k: FormsetKind, cs: seq<Card>)
    requires cs != []
    ensures var r := ReindexAll(k, cs + [Cleared(cs[|cs| - 1])]); var n := |cs|;
      |r| == n + 1 && r[n] == ReindexCard(k, Cleared(cs[n - 1]), n) &&
      (r[n].removeButton.Some? ==> r[n].removeButton == Some(false)) &&
      (r[n].title.Some? ==> r[n].title.value == Title(k, n))
  {
    ClearedHasNoData(k, cs[|cs| - 1]);
  }
}
