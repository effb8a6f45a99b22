/**
 * backend/static/js/project_form.js: adding a project card from the
 * empty-form template, removing a card, the "Project #n" titles and the
 * per-field checks run on input and on submit.
 */
module ProjectForm {
  import opened Text
  import opened Wrappers
  import opened Patterns
  import opened Nodes
  import FieldChecks

  // ------------------------------------------------------------ __prefix__ substitution

  /** `pat` occurs in `s`, found by the left-to-right scan the replacement makes. */
  predicate Occurs(s: string, pat: string)
    decreases |s|
  {
    s != [] && (StartsWith(s, pat) || Occurs(s[1..], pat))
  }

  /** The scan finds the pattern exactly where it occurs at some position. */
  lemma {:induction false} OccursContains(s: string, pat: string)
    requires pat != []
    ensures Occurs(s, pat) <==> Contains(s, pat)
    decreases |s|
  {
    if s != [] {
      OccursContains(s[1..], pat);
      if Contains(s, pat) && !StartsWith(s, pat) {
        var i :| 0 <= i <= |s| && StartsWith(s[i..], pat);
        assert i != 0;
        assert s[1..][i - 1..] == s[i..];
      }
      if Contains(s[1..], pat) {
        var i :| 0 <= i <= |s[1..]| && StartsWith(s[1..][i..], pat);
        assert s[1..][i..] == s[i + 1..];
      }
      if StartsWith(s, pat) {
        assert s[0..] == s;
      }
    }
  }

  /** `s.replace(/pat/g, rep)`: every match, scanning left to right without overlap. */
  function ReplaceAll(s: string, pat: string, rep: string): (r: string)
    requires pat != []
    ensures !Occurs(s, pat) ==> r == s
    decreases |s|
  {
    if s == [] then []
    else if StartsWith(s, pat) then rep + ReplaceAll(s[|pat|..], pat, rep)
    else [s[0]] + ReplaceAll(s[1..], pat, rep)
  }

  /** No character of `a` occurs in `b`. */
  predicate Disjoint(a: string, b: string) {
    forall i, j :: 0 <= i < |a| && 0 <= j < |b| ==> a[i] != b[j]
  }

  /** The first character of a non-empty result. */
  lemma ReplacedHead(t: string, pat: string, rep: string)
    requires pat != [] && rep != [] && t != []
    ensures |ReplaceAll(t, pat, rep)| > 0
    ensures ReplaceAll(t, pat, rep)[0] == (if StartsWith(t, pat) then rep[0] else t[0])
  {
  }

  /**
   * When the replacement shares no character with the pattern, a prefix of
   * the result made only of pattern characters is also a prefix of the input.
   */
  lemma {:induction false} PrefixKept(t: string, pat: string, rep: string, w: string)
    requires pat != [] && rep != [] && Disjoint(rep, w)
    requires |w| <= |ReplaceAll(t, pat, rep)| && ReplaceAll(t, pat, rep)[..|w|] == w
    ensures |w| <= |t| && t[..|w|] == w
    decreases |t|
  {
    if w != [] {
      if t == [] {
      } else if StartsWith(t, pat) {
        ReplacedHead(t, pat, rep);
        assert false;
      } else {
        UnmatchedHead(t, pat, rep, w);
        PrefixKept(t[1..], pat, rep, w[1..]);
        assert t[..|w|] == [t[0]] + t[1..][..|w| - 1];
      }
    }
  }

  /** Where no match starts, the result begins with the input's first character and goes on with its tail's result. */
  lemma UnmatchedHead(t: string, pat: string, rep: string, w: string)
    requires pat != [] && t != [] && !StartsWith(t, pat) && w != []
    requires |w| <= |ReplaceAll(t, pat, rep)| && ReplaceAll(t, pat, rep)[..|w|] == w
    ensures w[0] == t[0]
    ensures |w| - 1 <= |ReplaceAll(t[1..], pat, rep)| && ReplaceAll(t[1..], pat, rep)[..|w| - 1] == w[1..]
  {
    var r := ReplaceAll(t[1..], pat, rep);
    assert ReplaceAll(t, pat, rep) == [t[0]] + r;
  }

  /** Every match is replaced: none is left, nor formed across a replacement. */
  lemma {:induction false} NoPatternLeft(s: string, pat: string, rep: string)
    requires pat != [] && rep != [] && Disjoint(rep, pat)
    ensures !Contains(ReplaceAll(s, pat, rep), pat)
    decreases |s|
  {
    var r := ReplaceAll(s, pat, rep);
    if s == [] {
      assert r == [];
    } else if StartsWith(s, pat) {
      var t := s[|pat|..];
      NoPatternLeft(t, pat, rep);
      assert r == rep + ReplaceAll(t, pat, rep);
      forall i | 0 <= i <= |r| ensures !StartsWith(r[i..], pat) {
        if i < |rep| {
          assert r[i..][0] == rep[i];
        } else {
          assert r[i..] == ReplaceAll(t, pat, rep)[i - |rep|..];
        }
      }
    } else {
      var t := s[1..];
      NoPatternLeft(t, pat, rep);
      var rt := ReplaceAll(t, pat, rep);
      assert r == [s[0]] + rt;
      forall i | 0 <= i <= |r| ensures !StartsWith(r[i..], pat) {
        if i > 0 {
          assert r[i..] == rt[i - 1..];
        } else if StartsWith(r, pat) {
          var w := pat[1..];
          assert rt[..|w|] == w;
          assert Disjoint(rep, w);
          PrefixKept(t, pat, rep, w);
          assert false;
        }
      }
    }
  }

  const Prefix := "__prefix__"

  /** The digits of the form number share no character with "__prefix__". */
  lemma DigitsMissPrefix(n: nat)
    ensures Disjoint(NatStr(n), Prefix)
  {
    var d := NatStr(n);
    forall i, j | 0 <= i < |d| && 0 <= j < |Prefix| ensures d[i] != Prefix[j] {
      assert IsDigit(d[i]);
    }
  }

  // ------------------------------------------------------------ cards

  /**
   * One `.project-card`: its title text (None when it has no `.card-title`),
   * the formset index its inputs are named with, their markup, its
   * `DELETE` checkbox (None when the page has none, else whether it is
   * checked) and whether it is hidden.
   */
  datatype ProjectCard = ProjectCard(title: Option<string>, index: nat, html: string,
                                     deleteField: Option<bool>, hidden: bool)

  function CardTitle(k: nat): string { "Project #" + NatStr(k + 1) }

  /** `updateFormCounters`: the card at position k, if titled, reads "Project #k+1". */
  function Renumbered(cs: seq<ProjectCard>): (r: seq<ProjectCard>)
    ensures |r| == |cs|
    ensures forall k :: 0 <= k < |cs| ==>
      r[k] == if cs[k].title.Some? then cs[k].(title := Some(CardTitle(k))) else cs[k]
  {
    seq(|cs|, k requires 0 <= k < |cs| => if cs[k].title.Some? then cs[k].(title := Some(CardTitle(k))) else cs[k])
  }

  /** Titles follow document order, no two cards share one, and renumbering twice changes nothing. */
  lemma RenumberedTitles(cs: seq<ProjectCard>)
    ensures forall j, k :: 0 <= j < k < |cs| && cs[j].title.Some? && cs[k].title.Some? ==>
      Renumbered(cs)[j].title != Renumbered(cs)[k].title
    ensures Renumbered(Renumbered(cs)) == Renumbered(cs)
  {
    forall j, k | 0 <= j < k < |cs| && cs[j].title.Some? && cs[k].title.Some?
      ensures Renumbered(cs)[j].title != Renumbered(cs)[k].title
    {
      if CardTitle(j) == CardTitle(k) {
        var p := "Project #";
        assert CardTitle(j)[|p|..] == NatStr(j + 1);
        assert CardTitle(k)[|p|..] == NatStr(k + 1);
        NatStrInjective(j + 1, k + 1);
      }
    }
  }

  /** The card `addNewProjectForm` appends for form number `n`. */
  function NewCard(n: nat, template: string, withDelete: bool): (c: ProjectCard)
    ensures c.index == n && c.title == Some(CardTitle(n)) && !c.hidden
    ensures c.html == ReplaceAll(template, Prefix, NatStr(n))
    ensures !Contains(c.html, Prefix)
  {
    DigitsMissPrefix(n);
    NoPatternLeft(template, Prefix, NatStr(n));
    ProjectCard(Some(CardTitle(n)), n, ReplaceAll(template, Prefix, NatStr(n)),
                if withDelete then Some(false) else None, false)
  }

  /**
   * Cards and TOTAL_FORMS as Django's formset reads them: TOTAL_FORMS
   * counts the cards and the k-th card's inputs carry index k.
   */
  predicate Indexed(cs: seq<ProjectCard>, total: nat) {
    total == |cs| && forall k :: 0 <= k < |cs| ==> cs[k].index == k
  }

  /** `addNewProjectForm`: the cards and TOTAL_FORMS afterwards. */
  function AfterAdd(cs: seq<ProjectCard>, total: nat, template: string, withDelete: bool): (r: (seq<ProjectCard>, nat))
    ensures r.1 == total + 1 && |r.0| == |cs| + 1
  {
    (Renumbered(cs + [NewCard(total, template, withDelete)]), total + 1)
  }

  /** Adding a card keeps the cards and TOTAL_FORMS in step, and the new card holds no "__prefix__". */
  lemma AddKeepsIndexed(cs: seq<ProjectCard>, total: nat, template: string, withDelete: bool)
    requires Indexed(cs, total)
    ensures Indexed(AfterAdd(cs, total, template, withDelete).0, AfterAdd(cs, total, template, withDelete).1)
    ensures var c := AfterAdd(cs, total, template, withDelete).0[total];
      c.html == ReplaceAll(template, Prefix, NatStr(total)) && !Contains(c.html, Prefix)
  {
  }

  /** A card whose DELETE box is ticked and which is hidden. */
  function Marked(c: ProjectCard): ProjectCard {
    c.(deleteField := Some(true), hidden := true)
  }

  /**
   * `handleRemoveProject` as written, after a confirmed click on card `i`:
   * with a DELETE field the box is ticked and the card hidden; without one
   * the card is dropped and TOTAL_FORMS set to the number of cards left,
   * while the later cards keep the index their inputs were named with.
   */
  function AfterRemoveAsWritten(cs: seq<ProjectCard>, total: nat, i: nat): (r: (seq<ProjectCard>, nat))
    requires i < |cs|
    ensures cs[i].deleteField.Some? ==> r == (cs[i := Marked(cs[i])], total)
    ensures cs[i].deleteField.None? ==>
      r.1 == |cs| - 1 && |r.0| == |cs| - 1 &&
      forall k :: 0 <= k < |r.0| ==> r.0[k].index == (if k < i then cs[k].index else cs[k + 1].index)
  {
    if cs[i].deleteField.Some? then (cs[i := Marked(cs[i])], total)
    else (Renumbered(cs[..i] + cs[i + 1..]), |cs| - 1)
  }

  function Card(k: nat): ProjectCard { ProjectCard(Some(CardTitle(k)), k, [], None, false) }

  /**
   * Four new cards, the third removed: TOTAL_FORMS becomes 3 while the last
   * card's inputs still carry index 3, so the formset never reads them, and
   * the next card added is given index 3 as well.
   */
  lemma RemoveAsWrittenLosesLastCard(template: string)
    ensures var cs := [Card(0), Card(1), Card(2), Card(3)];
      var r := AfterRemoveAsWritten(cs, 4, 2);
      var a := AfterAdd(r.0, r.1, template, false);
      Indexed(cs, 4) && r.1 == 3 && |r.0| == 3 && r.0[2].index == 3 && !Indexed(r.0, r.1) &&
      a.0[2].index == 3 && a.0[3].index == 3
  {
    var cs := [Card(0), Card(1), Card(2), Card(3)];
    var r := AfterRemoveAsWritten(cs, 4, 2);
    assert cs[..2] + cs[3..] == [Card(0), Card(1), Card(3)];
    assert r.0[2].index == 3;
  }

  /** Each card's inputs renamed to its position, as the skill and certification formsets do. */
  function Reindexed(cs: seq<ProjectCard>): (r: seq<ProjectCard>)
    ensures |r| == |cs| && forall k :: 0 <= k < |cs| ==> r[k] == cs[k].(index := k)
  {
    seq(|cs|, k requires 0 <= k < |cs| => cs[k].(index := k))
  }

  /** The removal with the later cards renamed, so that TOTAL_FORMS covers every card left. */
  function AfterRemove(cs: seq<ProjectCard>, total: nat, i: nat): (r: (seq<ProjectCard>, nat))
    requires i < |cs|
    ensures cs[i].deleteField.Some? ==> r == AfterRemoveAsWritten(cs, total, i)
    ensures cs[i].deleteField.None? ==> r.1 == AfterRemoveAsWritten(cs, total, i).1 && |r.0| == |cs| - 1
  {
    if cs[i].deleteField.Some? then (cs[i := Marked(cs[i])], total)
    else (Renumbered(Reindexed(cs[..i] + cs[i + 1..])), |cs| - 1)
  }

  /**
   * Removal keeps the cards and TOTAL_FORMS in step: a card with a DELETE
   * field stays in place, ticked and hidden, with TOTAL_FORMS unchanged; any
   * other card is gone, and the cards before and after it keep their order.
   */
  lemma RemoveKeepsIndexed(cs: seq<ProjectCard>, total: nat, i: nat)
    requires i < |cs| && Indexed(cs, total)
    ensures var r := AfterRemove(cs, total, i); Indexed(r.0, r.1)
    ensures cs[i].deleteField.Some? ==>
      AfterRemove(cs, total, i) == (cs[i := Marked(cs[i])], total)
    ensures cs[i].deleteField.None? ==>
      var r := AfterRemove(cs, total, i).0;
      AfterRemove(cs, total, i).1 == |cs| - 1 &&
      (forall k :: 0 <= k < i ==> r[k].html == cs[k].html) &&
      (forall k :: i <= k < |r| ==> r[k].html == cs[k + 1].html)
  {
  }

  /**
   * The cards of the project step, the formset's TOTAL_FORMS input, the
   * DOM node of each card, and the cards whose confirmed removal is still
   * waiting on its timers.
   */
  class ProjectForms {
    var cards: seq<ProjectCard>
    var totalForms: nat
    /** The DOM node of each card, parallel to `cards`. */
    var nodes: seq<nat>
    /** A node no card has been given yet. */
    var nextNode: nat
    /** The nodes whose removal timers are running, oldest first. */
    var removing: seq<nat>

    ghost predicate Valid()
      reads this
    {
      |nodes| == |cards| && Distinct(nodes) && forall n :: n in nodes ==> n < nextNode
    }

    constructor(cards: seq<ProjectCard>, totalForms: nat)
      ensures Valid() && removing == []
      ensures this.cards == cards && this.totalForms == totalForms
    {
      this.cards := cards;
      this.totalForms := totalForms;
      nodes := seq(|cards|, i requires 0 <= i < |cards| => i);
      nextNode := |cards|;
      removing := [];
    }

    /** `updateFormCounters`: each titled card renamed after its position. */
    method UpdateFormCounters()
      modifies this
      ensures cards == Renumbered(old(cards)) && totalForms == old(totalForms)
      ensures nodes == old(nodes) && nextNode == old(nextNode) && removing == old(removing)
    {
      var n := |cards|;
      for k := 0 to n
        invariant |cards| == n && totalForms == old(totalForms)
        invariant nodes == old(nodes) && nextNode == old(nextNode) && removing == old(removing)
        invariant forall j :: 0 <= j < k ==> cards[j] == Renumbered(old(cards))[j]
        invariant forall j :: k <= j < n ==> cards[j] == old(cards)[j]
      {
        if cards[k].title.Some? {
          cards := cards[k := cards[k].(title := Some(CardTitle(k)))];
        }
      }
    }

    /**
     * `addNewProjectForm`, the template's markup given and whether it holds
     * a DELETE box.  The new card takes its number from TOTAL_FORMS, which a
     * pending removal has not lowered yet.
     */
    method AddNewProjectForm(template: string, withDelete: bool)
      requires Valid()
      modifies this
      ensures Valid() && removing == old(removing)
      ensures (cards, totalForms) == AfterAdd(old(cards), old(totalForms), template, withDelete)
      ensures nodes == old(nodes) + [old(nextNode)]
      ensures Indexed(old(cards), old(totalForms)) ==> Indexed(cards, totalForms)
    {
      if Indexed(cards, totalForms) {
        AddKeepsIndexed(cards, totalForms, template, withDelete);
      }
      assert nextNode !in nodes;
      var formNum := totalForms;
      cards := cards + [NewCard(formNum, template, withDelete)];
      nodes := nodes + [nextNode];
      nextNode := nextNode + 1;
      totalForms := formNum + 1;
      UpdateFormCounters();
    }

    /**
     * The click on card `i`'s remove button, given the answer to the
     * confirmation: a confirmed removal only sets its timer, and the page
     * is otherwise left as it is.
     */
    method HandleRemoveProject(i: nat, confirmed: bool)
      requires Valid() && i < |cards|
      modifies this
      ensures Valid()
      ensures cards == old(cards) && totalForms == old(totalForms) && nodes == old(nodes)
      ensures removing == (if confirmed then old(removing) + [old(nodes)[i]] else old(removing))
    {
      if confirmed {
        removing := removing + [nodes[i]];
      }
    }

    /**
     * The oldest removal's timers fire, the 500 ms one and the 400 ms one
     * taken together: the card, found by its node wherever it now sits, is
     * removed as `AfterRemove` says.  A card already removed by an earlier
     * confirmation leaves the cards as they are, and TOTAL_FORMS becomes
     * their count.
     */
    method RemovalFires()
      requires Valid() && removing != []
      modifies this
      ensures Valid() && removing == old(removing)[1..] && nextNode == old(nextNode)
      ensures var at := PositionOf(old(nodes), old(removing)[0]);
        at.Some? ==>
          (cards, totalForms) == AfterRemove(old(cards), old(totalForms), at.value) &&
          nodes == if old(cards)[at.value].deleteField.Some? then old(nodes) else Without(old(nodes), at.value)
      ensures old(removing)[0] !in old(nodes) ==>
        cards == Renumbered(Reindexed(old(cards))) && totalForms == |cards| && nodes == old(nodes)
      ensures Indexed(old(cards), old(totalForms)) ==> Indexed(cards, totalForms)
    {
      var n := removing[0];
      removing := removing[1..];
      match PositionOf(nodes, n)
      case None =>
        cards := Reindexed(cards);
        totalForms := |cards|;
        UpdateFormCounters();
      case Some(p) =>
        if Indexed(cards, totalForms) {
          RemoveKeepsIndexed(cards, totalForms, p);
        }
        if cards[p].deleteField.Some? {
          cards := cards[p := Marked(cards[p])];
        } else {
          WithoutDistinct(nodes, p);
          WithoutSubset(nodes, p);
          cards := Reindexed(Without(cards, p));
          nodes := Without(nodes, p);
          totalForms := |cards|;
          UpdateFormCounters();
        }
    }
  }

  // ------------------------------------------------------------ validateField / validateAllFields

  /** An input or textarea of a card: its name, value and `required` attribute. */
  datatype Input = Input(name: string, value: string, required: bool)

  const RequiredMessage := "This field is required"
  const EmailMessage := "Please enter a valid email address"
  const UrlMessage := "Please enter a valid URL"

  /**
   * `validateField`: None when valid, else the message put under the field.
   * `urlParses` stands for `new URL(value)` not throwing.
   */
  function FieldError(f: Input, urlParses: string -> bool): (r: Option<string>)
    ensures r.None? <==>
      (f.required ==> Strip(f.value) != []) &&
      (Contains(f.name, "email") && Strip(f.value) != [] ==> IsValidEmail(Strip(f.value))) &&
      (Contains(f.name, "link") && Strip(f.value) != [] ==> urlParses(Strip(f.value)))
    ensures r.Some? ==> r.value in {RequiredMessage, EmailMessage, UrlMessage}
    ensures r == Some(RequiredMessage) <==> f.required && Strip(f.value) == []
    ensures r == Some(EmailMessage) <==>
      !(f.required && Strip(f.value) == []) && Contains(f.name, "email") && Strip(f.value) != [] &&
      !IsValidEmail(Strip(f.value))
  {
    var v := Strip(f.value);
    if f.required && v == [] then Some(RequiredMessage)
    else if Contains(f.name, "email") && v != [] && !IsValidEmail(v) then Some(EmailMessage)
    else if Contains(f.name, "link") && v != [] && !urlParses(v) then Some(UrlMessage)
    else None
  }

  /** An optional field left empty is always accepted. */
  lemma EmptyOptionalAccepted(f: Input, urlParses: string -> bool)
    requires !f.required && Strip(f.value) == []
    ensures FieldError(f, urlParses).None?
  {
  }

  /**
   * `validateAllFields` over the required inputs of the cards: every field
   * is checked (its error shown) even after a failure, and the form is
   * valid iff all pass.
   */
  method ValidateAllFields(fields: seq<Input>, urlParses: string -> bool) returns (allValid: bool, errors: seq<Option<string>>)
    ensures |errors| == |fields| && forall k :: 0 <= k < |fields| ==> errors[k] == FieldError(fields[k], urlParses)
    ensures allValid <==> forall k :: 0 <= k < |fields| ==> FieldError(fields[k], urlParses).None?
  {
    var first;
    allValid, errors, first := FieldChecks.CheckAll(fields, (f: Input) => FieldError(f, urlParses));
  }
}
