/** The FAQ accordion of staticfiles/js/faq-script.js. Each question
    element carries an `active` class and an `aria-expanded` attribute, its
    answer (the next sibling) an `active` class, and its `.faq-item` a
    `display` style; the page also has one focused element. The questions
    and their texts are fixed when the accordion is built. */
module Faq {
  import opened Wrappers

  /** The state of one question, its answer and its item. */
  datatype Item = Item(questionActive: bool, answerActive: bool, ariaExpanded: bool, displayed: bool)

  /** Answer flag and `aria-expanded` agree with the question's flag. */
  predicate Consistent(it: Item)
  {
    it.ariaExpanded == it.questionActive && it.answerActive == it.questionActive
  }

  /** `openQuestion` on one item. */
  function Opened(it: Item): (r: Item)
    ensures r.questionActive && Consistent(r) && r.displayed == it.displayed
  {
    it.(questionActive := true, answerActive := true, ariaExpanded := true)
  }

  /** `closeQuestion` on one item. */
  function Closed(it: Item): (r: Item)
    ensures !r.questionActive && Consistent(r) && r.displayed == it.displayed
  {
    it.(questionActive := false, answerActive := false, ariaExpanded := false)
  }

  /** `closeAllQuestions`: every item closed, visibility untouched. */
  function CloseEvery(s: seq<Item>): (r: seq<Item>)
    ensures |r| == |s|
    ensures forall j :: 0 <= j < |r| ==> !r[j].questionActive && Consistent(r[j]) && r[j].displayed == s[j].displayed
  {
    seq(|s|, j requires 0 <= j < |s| => Closed(s[j]))
  }

  /** `openAll`: every item open, visibility untouched. */
  function OpenEvery(s: seq<Item>): (r: seq<Item>)
    ensures |r| == |s|
    ensures forall j :: 0 <= j < |r| ==> r[j].questionActive && Consistent(r[j]) && r[j].displayed == s[j].displayed
  {
    seq(|s|, j requires 0 <= j < |s| => Opened(s[j]))
  }

  predicate AtMostOneActive(s: seq<Item>)
  {
    forall j, k :: 0 <= j < |s| && 0 <= k < |s| && s[j].questionActive && s[k].questionActive ==> j == k
  }

  /** "At most one question open" is what a click leaves, not an invariant
      of the accordion: `openAll` opens two or more questions at once. */
  lemma OpenEveryBreaksAtMostOne(s: seq<Item>)
    requires |s| >= 2
    ensures !AtMostOneActive(OpenEvery(s))
  {
    var r := OpenEvery(s);
    assert r[0].questionActive && r[1].questionActive;
  }

  /** `handleQuestionClick` on question i: close everything, then reopen i
      unless it was the open one. */
  function Click(s: seq<Item>, i: nat): (r: seq<Item>)
    requires i < |s|
    ensures |r| == |s| && AtMostOneActive(r)
    ensures s[i].questionActive ==> forall j :: 0 <= j < |r| ==> !r[j].questionActive
    ensures !s[i].questionActive ==> forall j :: 0 <= j < |r| ==> (r[j].questionActive <==> j == i)
    ensures forall j :: 0 <= j < |r| ==> Consistent(r[j]) && r[j].displayed == s[j].displayed
  {
    var closed := CloseEvery(s);
    if s[i].questionActive then closed else closed[i := Opened(closed[i])]
  }

  /** Clicking a question twice, starting from one open at most, ends
      where the first click found it: open if it was, closed otherwise. */
  lemma ClickTwiceRestoresQuestion(s: seq<Item>, i: nat)
    requires i < |s|
    ensures Click(Click(s, i), i)[i].questionActive == s[i].questionActive
  {
    var once := Click(s, i);
    assert once[i].questionActive == !s[i].questionActive;
  }

  /** A keyboard key as `handleKeyboard` distinguishes it. */
  datatype Key = Enter | Space | ArrowDown | ArrowUp | Home | End | OtherKey

  /** The question holding focus after `key` goes down on question i, the
      one that has focus while the key arrives. The arrows target the
      neighbouring item (`getNextQuestion`, `getPreviousQuestion`), Home and
      End the first and last question; `focus()` moves focus only onto a
      target that exists and is displayed (an element inside a
      `display: none` item cannot take focus), and otherwise it stays on i.
      Enter, Space and other keys leave it on i. */
  function FocusAfter(key: Key, i: nat, s: seq<Item>): (r: nat)
    requires i < |s|
    ensures r < |s|
    ensures r != i ==> s[r].displayed
    ensures key == ArrowDown ==> r == if i + 1 < |s| && s[i + 1].displayed then i + 1 else i
    ensures key == ArrowUp ==> r == if i > 0 && s[i - 1].displayed then i - 1 else i
    ensures key == Home ==> r == if s[0].displayed then 0 else i
    ensures key == End ==> r == if s[|s| - 1].displayed then |s| - 1 else i
    ensures key in {Enter, Space, OtherKey} ==> r == i
  {
    match key
    case ArrowDown => if i + 1 < |s| && s[i + 1].displayed then i + 1 else i
    case ArrowUp => if i > 0 && s[i - 1].displayed then i - 1 else i
    case Home => if s[0].displayed then 0 else i
    case End => if s[|s| - 1].displayed then |s| - 1 else i
    case _ => i
  }

  /** Keyboard navigation never leaves the displayed questions: from a
      displayed question, every key lands on a displayed one. */
  lemma FocusStaysOnShown(key: Key, i: nat, s: seq<Item>)
    requires i < |s| && s[i].displayed
    ensures s[FocusAfter(key, i, s)].displayed
  {
  }

  /** ArrowDown then ArrowUp on the question reached returns focus to the
      question where it started, when the next item is displayed; when it
      is hidden, ArrowDown does not move at all. */
  lemma ArrowDownThenUp(i: nat, s: seq<Item>)
    requires i + 1 < |s| && s[i].displayed
    ensures s[i + 1].displayed ==> FocusAfter(ArrowUp, FocusAfter(ArrowDown, i, s), s) == i
    ensures !s[i + 1].displayed ==> FocusAfter(ArrowDown, i, s) == i
  {
  }

  /** `toLowerCase` on the letters the shop's texts use: Latin A-Z and the
      Cyrillic capitals А-Я and Ё. */
  function ToLower(c: char): (r: char)
    ensures 'A' <= c <= 'Z' ==> 'a' <= r <= 'z' && r as int == c as int + 32
    ensures 'А' <= c <= 'Я' ==> 'а' <= r <= 'я' && r as int == c as int + 32
    ensures c == 'Ё' ==> r == 'ё'
    ensures !('A' <= c <= 'Z') && !('А' <= c <= 'Я') && c != 'Ё' ==> r == c
  {
    if 'A' <= c <= 'Z' then (c as int + 32) as char
    else if 'А' <= c <= 'Я' then (c as int + 32) as char
    else if c == 'Ё' then 'ё'
    else c
  }

  /** Lowering is idempotent: a lowered character has no capital left in
      the ranges `ToLower` handles. */
  lemma ToLowerIdempotent(c: char)
    ensures ToLower(ToLower(c)) == ToLower(c)
    ensures !('A' <= ToLower(c) <= 'Z') && !('А' <= ToLower(c) <= 'Я') && ToLower(c) != 'Ё'
  {
  }

  function Lowered(s: string): (r: string)
    ensures |r| == |s| && forall k :: 0 <= k < |s| ==> r[k] == ToLower(s[k])
  {
    seq(|s|, k requires 0 <= k < |s| => ToLower(s[k]))
  }

  /** pat occurs in text at offset k. */
  predicate OccursAt(text: string, pat: string, k: int)
  {
    0 <= k <= |text| - |pat| && text[k..k + |pat|] == pat
  }

  /** JavaScript's `text.includes(pat)`. */
  predicate Includes(text: string, pat: string)
  {
    exists k :: 0 <= k <= |text| - |pat| && OccursAt(text, pat, k)
  }

  /** Whether `searchQuestion(search)` shows the item with these texts. */
  predicate SearchHit(question: string, answer: string, search: string)
  {
    Includes(Lowered(question), Lowered(search)) || Includes(Lowered(answer), Lowered(search))
  }

  /** The items after `searchQuestion(search)`. */
  function Searched(s: seq<Item>, questions: seq<string>, answers: seq<string>, search: string): (r: seq<Item>)
    requires |s| == |questions| == |answers|
    ensures |r| == |s|
    ensures forall j :: 0 <= j < |r| ==>
              r[j].displayed == SearchHit(questions[j], answers[j], search) &&
              r[j] == s[j].(displayed := r[j].displayed)
  {
    seq(|s|, j requires 0 <= j < |s| => s[j].(displayed := SearchHit(questions[j], answers[j], search)))
  }

  /** `resetSearch`: every item shown, open/closed state untouched. */
  function ShowEvery(s: seq<Item>): (r: seq<Item>)
    ensures |r| == |s| && forall j :: 0 <= j < |r| ==> r[j] == s[j].(displayed := true)
  {
    seq(|s|, j requires 0 <= j < |s| => s[j].(displayed := true))
  }

  /** The empty search shows every item, which is what `resetSearch`
      does. */
  lemma EmptySearchShowsAll(s: seq<Item>, questions: seq<string>, answers: seq<string>)
    requires |s| == |questions| == |answers|
    ensures Searched(s, questions, answers, "") == ShowEvery(s)
  {
    forall j | 0 <= j < |s| ensures SearchHit(questions[j], answers[j], "") {
      assert OccursAt(Lowered(questions[j]), Lowered(""), 0);
    }
  }

  /** Searching for a question's own text, in any letter case, shows it. */
  lemma SearchFindsOwnQuestion(s: seq<Item>, questions: seq<string>, answers: seq<string>, i: nat, search: string)
    requires |s| == |questions| == |answers| && i < |s|
    requires Lowered(search) == Lowered(questions[i])
    ensures Searched(s, questions, answers, search)[i].displayed
  {
    var q := Lowered(questions[i]);
    assert OccursAt(q, Lowered(search), 0);
  }

  class FAQAccordion {
    /** The text content of each `.faq-question` and of its answer. */
    const questions: seq<string>
    const answers: seq<string>
    var items: seq<Item>
    /** The question that has keyboard focus as far as the script can tell:
        None until a key arrives at a question, which then holds focus. */
    var focus: Option<nat>

    ghost predicate Valid()
      reads this
    {
      |items| == |questions| == |answers| &&
      forall j :: 0 <= j < |items| ==> Consistent(items[j])
    }

    /** `constructor` and `init`: every question closed with
        `aria-expanded="false"`, every item shown. */
    constructor(questions: seq<string>, answers: seq<string>)
      requires |questions| == |answers|
      ensures Valid() && this.questions == questions && this.answers == answers
      ensures items == seq(|questions|, _ => Item(false, false, false, true)) && focus == None
    {
      this.questions := questions;
      this.answers := answers;
      items := seq(|questions|, _ => Item(false, false, false, true));
      focus := None;
    }

    method OpenQuestion(i: nat)
      requires Valid() && i < |items|
      modifies this
      ensures Valid() && items == old(items)[i := Opened(old(items)[i])] && focus == old(focus)
    {
      items := items[i := Opened(items[i])];
    }

    method CloseQuestion(i: nat)
      requires Valid() && i < |items|
      modifies this
      ensures Valid() && items == old(items)[i := Closed(old(items)[i])] && focus == old(focus)
    {
      items := items[i := Closed(items[i])];
    }

    method CloseAllQuestions()
      requires Valid()
      modifies this
      ensures Valid() && items == CloseEvery(old(items)) && focus == old(focus)
    {
      var j := 0;
      while j < |items|
        invariant Valid() && 0 <= j <= |items| == |old(items)| && focus == old(focus)
        invariant forall k :: 0 <= k < j ==> items[k] == Closed(old(items)[k])
        invariant forall k :: j <= k < |items| ==> items[k] == old(items)[k]
      {
        CloseQuestion(j);
        j := j + 1;
      }
    }

    method HandleQuestionClick(i: nat)
      requires Valid() && i < |items|
      modifies this
      ensures Valid() && items == Click(old(items), i) && focus == old(focus)
    {
      var isActive := items[i].questionActive;
      CloseAllQuestions();
      if !isActive {
        OpenQuestion(i);
      }
    }

    /** `handleKeyboard(event, question i)`: the key arrives at question i,
        which holds focus at that moment. */
    method HandleKeyboard(key: Key, i: nat)
      requires Valid() && i < |items|
      modifies this
      ensures Valid()
      ensures items == (if key == Enter || key == Space then Click(old(items), i) else old(items))
      ensures focus == Some(FocusAfter(key, i, old(items)))
    {
      var shown := items;
      if key == Enter || key == Space {
        HandleQuestionClick(i);
      }
      var target := i;
      if key == ArrowDown && i + 1 < |shown| && shown[i + 1].displayed {
        target := i + 1;
      }
      if key == ArrowUp && i > 0 && shown[i - 1].displayed {
        target := i - 1;
      }
      if key == Home && shown[0].displayed {
        target := 0;
      }
      if key == End && shown[|shown| - 1].displayed {
        target := |shown| - 1;
      }
      focus := Some(target);
    }

    /** `openByIndex`: an index outside the list changes nothing. */
    method OpenByIndex(index: int)
      requires Valid()
      modifies this
      ensures Valid() && focus == old(focus)
      ensures items == if 0 <= index < |old(items)| then Click(old(items), index) else old(items)
    {
      if index >= 0 && index < |items| {
        HandleQuestionClick(index);
      }
    }

    /** `searchQuestion`: shows exactly the items whose question or answer
        includes the search text, ignoring case; reports whether any is
        shown. */
    method SearchQuestion(search: string) returns (found: bool)
      requires Valid()
      modifies this
      ensures Valid() && items == Searched(old(items), questions, answers, search) && focus == old(focus)
      ensures found <==> exists j :: 0 <= j < |items| && items[j].displayed
    {
      var needle := Lowered(search);
      found := false;
      var j := 0;
      while j < |items|
        invariant Valid() && 0 <= j <= |items| == |old(items)| && focus == old(focus)
        invariant forall k :: 0 <= k < j ==> items[k] == old(items)[k].(displayed := SearchHit(questions[k], answers[k], search))
        invariant forall k :: j <= k < |items| ==> items[k] == old(items)[k]
        invariant found <==> exists k :: 0 <= k < j && items[k].displayed
      {
        var hit := Includes(Lowered(questions[j]), needle) || Includes(Lowered(answers[j]), needle);
        items := items[j := items[j].(displayed := hit)];
        if hit {
          found := true;
        }
        j := j + 1;
      }
    }

    method ResetSearch()
      requires Valid()
      modifies this
      ensures Valid() && items == ShowEvery(old(items)) && focus == old(focus)
    {
      var j := 0;
      while j < |items|
        invariant Valid() && 0 <= j <= |items| == |old(items)| && focus == old(focus)
        invariant forall k :: 0 <= k < j ==> items[k] == old(items)[k].(displayed := true)
        invariant forall k :: j <= k < |items| ==> items[k] == old(items)[k]
      {
        items := items[j := items[j].(displayed := true)];
        j := j + 1;
      }
    }

    method OpenAll()
      requires Valid()
      modifies this
      ensures Valid() && items == OpenEvery(old(items)) && focus == old(focus)
    {
      var j := 0;
      while j < |items|
        invariant Valid() && 0 <= j <= |items| == |old(items)| && focus == old(focus)
        invariant forall k :: 0 <= k < j ==> items[k] == Opened(old(items)[k])
        invariant forall k :: j <= k < |items| ==> items[k] == old(items)[k]
      {
        OpenQuestion(j);
        j := j + 1;
      }
    }

    method CloseAll()
      requires Valid()
      modifies this
      ensures Valid() && items == CloseEvery(old(items)) && focus == old(focus)
    {
      CloseAllQuestions();
    }
  }
}
