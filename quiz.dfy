/**
 * js/reciclagem.js, the recycling quiz: questions shown one at a time, each
 * with options of which one carries `data-correct="true"`. Clicking an option
 * selects it and records whether it is the correct one; Next and Previous move
 * between questions; the results show the score, a message for its tier and
 * the correct and wrongly chosen options; Restart starts over.
 *
 * The options are the records of one array, in document order; each knows
 * the question it belongs to (the page numbers the questions `q1` … `qN`, and
 * the handler files an answer under that number minus one).
 */
module RecyclingQuiz {
  import opened MaterialTabs

  /** An option element: its question, its `data-correct` attribute, and its
      three classes. */
  datatype QuizOption = QuizOption(question: nat, isCorrect: bool,
                                   selected: bool, correct: bool, incorrect: bool)

  // ---------- what the handlers do to the options ----------

  /** A click on option `o`: every option of the same question loses
      `selected`, then `o` gains it. */
  function Select(opts: seq<QuizOption>, o: nat): (r: seq<QuizOption>)
    requires o < |opts|
    ensures |r| == |opts| && r[o].selected
    ensures forall j :: 0 <= j < |r| && j != o && r[j].question == opts[o].question ==> !r[j].selected
  {
    seq(|opts|, j requires 0 <= j < |opts| =>
      if opts[j].question == opts[o].question then opts[j].(selected := j == o) else opts[j])
  }

  /** The result marks of one option: `correct` on the correct ones,
      `incorrect` on a selected wrong one; classes are only ever added. */
  function Mark(x: QuizOption): (r: QuizOption)
    ensures r.question == x.question && r.isCorrect == x.isCorrect && r.selected == x.selected
    ensures r.correct <==> x.correct || x.isCorrect
    ensures r.incorrect <==> x.incorrect || (x.selected && !x.isCorrect)
  {
    if x.isCorrect then x.(correct := true)
    else if x.selected then x.(incorrect := true)
    else x
  }

  function Annotate(opts: seq<QuizOption>): (r: seq<QuizOption>)
    ensures |r| == |opts|
  {
    seq(|opts|, j requires 0 <= j < |opts| => Mark(opts[j]))
  }

  /** Restart removes the three classes from every option. */
  function ClearMarks(opts: seq<QuizOption>): (r: seq<QuizOption>)
    ensures |r| == |opts|
    ensures forall j :: 0 <= j < |r| ==>
              !r[j].selected && !r[j].correct && !r[j].incorrect
              && r[j].question == opts[j].question && r[j].isCorrect == opts[j].isCorrect
  {
    seq(|opts|, j requires 0 <= j < |opts| =>
      opts[j].(selected := false, correct := false, incorrect := false))
  }

  // ---------- the state invariant ----------

  /** No option is marked both ways, and only as the attribute allows. */
  predicate MarksSound(opts: seq<QuizOption>) {
    forall j :: 0 <= j < |opts| ==>
      (opts[j].correct ==> opts[j].isCorrect) && (opts[j].incorrect ==> !opts[j].isCorrect)
  }

  /** At most one option per question is selected. */
  predicate OneSelected(opts: seq<QuizOption>) {
    forall j, k ::
      0 <= j < |opts| && 0 <= k < |opts| && opts[j].selected && opts[k].selected
      && opts[j].question == opts[k].question
      ==> j == k
  }

  /** The recorded answers are exactly the selections: a selected option's
      question has its answer on file, and each answer on file belongs to a
      selected option. */
  predicate AnswersMatch(opts: seq<QuizOption>, answers: map<nat, bool>) {
    && (forall j :: 0 <= j < |opts| && opts[j].selected ==>
          opts[j].question in answers && answers[opts[j].question] == opts[j].isCorrect)
    && (forall q :: q in answers ==>
          exists j :: 0 <= j < |opts| && opts[j].selected && opts[j].question == q)
  }

  predicate InRange(opts: seq<QuizOption>, n: nat) {
    forall j :: 0 <= j < |opts| ==> opts[j].question < n
  }

  predicate Consistent(opts: seq<QuizOption>, answers: map<nat, bool>, n: nat) {
    InRange(opts, n) && MarksSound(opts) && OneSelected(opts) && AnswersMatch(opts, answers)
  }

  /** Selecting leaves exactly `o` selected in its question, changes no other
      question's options and no marks. */
  lemma SelectSpec(opts: seq<QuizOption>, o: nat)
    requires o < |opts|
    ensures var r := Select(opts, o);
            && r[o].selected
            && (forall j :: 0 <= j < |opts| && j != o && opts[j].question == opts[o].question ==> !r[j].selected)
            && (forall j :: 0 <= j < |opts| && opts[j].question != opts[o].question ==> r[j] == opts[j])
            && (forall j :: 0 <= j < |opts| ==>
                  r[j].question == opts[j].question && r[j].isCorrect == opts[j].isCorrect
                  && r[j].correct == opts[j].correct && r[j].incorrect == opts[j].incorrect)
  {
  }

  /** A selection, with its answer recorded, keeps the state consistent. */
  lemma SelectConsistent(opts: seq<QuizOption>, answers: map<nat, bool>, n: nat, o: nat)
    requires o < |opts| && Consistent(opts, answers, n)
    ensures Consistent(Select(opts, o), answers[opts[o].question := opts[o].isCorrect], n)
  {
    var r := Select(opts, o);
    var q := opts[o].question;
    var a := answers[q := opts[o].isCorrect];
    forall p | p in a
      ensures exists j :: 0 <= j < |r| && r[j].selected && r[j].question == p
    {
      if p == q {
        assert r[o].selected && r[o].question == p;
      } else {
        var j :| 0 <= j < |opts| && opts[j].selected && opts[j].question == p;
        assert r[j] == opts[j];
      }
    }
  }

  /** The marks satisfy the result rules, leave the selections alone, and
      never mark an option both ways. */
  lemma AnnotateSpec(opts: seq<QuizOption>)
    ensures var r := Annotate(opts);
            && (forall j :: 0 <= j < |opts| && opts[j].isCorrect ==> r[j].correct)
            && (forall j :: 0 <= j < |opts| && opts[j].selected && !opts[j].isCorrect ==> r[j].incorrect)
            && (forall j :: 0 <= j < |opts| && !opts[j].selected && !opts[j].isCorrect ==> r[j] == opts[j])
            && (forall j :: 0 <= j < |opts| ==>
                  r[j].question == opts[j].question && r[j].isCorrect == opts[j].isCorrect
                  && r[j].selected == opts[j].selected)
            && (MarksSound(opts) ==> MarksSound(r))
  {
  }

  /** Showing the results a second time changes nothing more. */
  lemma AnnotateIdempotent(opts: seq<QuizOption>)
    ensures Annotate(Annotate(opts)) == Annotate(opts)
  {
  }

  /** Marking the results keeps the state consistent. */
  lemma AnnotateConsistent(opts: seq<QuizOption>, answers: map<nat, bool>, n: nat)
    requires Consistent(opts, answers, n)
    ensures Consistent(Annotate(opts), answers, n)
  {
    var r := Annotate(opts);
    AnnotateSpec(opts);
    forall q | q in answers
      ensures exists j :: 0 <= j < |r| && r[j].selected && r[j].question == q
    {
      var j :| 0 <= j < |opts| && opts[j].selected && opts[j].question == q;
      assert r[j].selected && r[j].question == q;
    }
  }

  /** A `incorrect` mark stays when the user then picks another option of
      that question: the mark outlives the selection it was made for. */
  lemma StaleMarkSurvives(opts: seq<QuizOption>, o: nat, j: nat)
    requires o < |opts| && j < |opts| && j != o
    requires opts[j].question == opts[o].question && Annotate(opts)[j].incorrect
    ensures !Select(Annotate(opts), o)[j].selected && Select(Annotate(opts), o)[j].incorrect
  {
  }

  // ---------- score and tier ----------

  /** The questions whose answer on file is `true`. */
  function RightAnswers(answers: map<nat, bool>): (s: set<nat>)
    ensures forall q :: q in s <==> q in answers && answers[q]
  {
    set q | q in answers && answers[q]
  }

  /** `userAnswers.filter(a => a === true).length`: the answers on file that
      are `true` (questions without an answer are holes and count nothing). */
  function Score(answers: map<nat, bool>): (r: nat)
    ensures r == 0 <==> forall q :: q in answers ==> !answers[q]
  {
    var right := RightAnswers(answers);
    if right == {} then 0
    else
      var q :| q in right;
      assert q in answers && answers[q];
      |right|
  }

  /** A set of numbers below `n` has at most `n` elements. */
  lemma {:induction false} BoundedSetSize(s: set<nat>, n: nat)
    requires forall x :: x in s ==> x < n
    ensures |s| <= n
  {
    if n == 0 {
      assert s == {};
    } else {
      var rest := s - {n - 1};
      BoundedSetSize(rest, n - 1);
      if n - 1 in s {
        assert s == rest + {n - 1};
      } else {
        assert s == rest;
      }
    }
  }

  /** The score never exceeds the number of questions. */
  lemma ScoreBound(answers: map<nat, bool>, n: nat)
    requires forall q :: q in answers ==> q < n
    ensures Score(answers) <= n
  {
    BoundedSetSize(RightAnswers(answers), n);
  }

  /** Overwriting an answer moves the score by at most one: up when a wrong
      or missing answer becomes right, down when a right one becomes wrong. */
  lemma ScoreOverwrite(answers: map<nat, bool>, q: nat, b: bool)
    ensures var was := q in answers && answers[q];
            Score(answers[q := b]) == Score(answers) - (if was then 1 else 0) + (if b then 1 else 0)
  {
    var updated := answers[q := b];
    var others := RightAnswers(answers) - {q};
    assert RightAnswers(updated) == if b then others + {q} else others;
    if q in answers && answers[q] {
      assert RightAnswers(answers) == others + {q};
    } else {
      assert RightAnswers(answers) == others;
    }
  }

  /** The three results `#quiz-message` tells apart; each has its own text
      and colour (green, orange, red), which stand here as the tier. */
  datatype Tier = Master | Good | KeepLearning

  /** The message tier: all right, then at least half (`score >= total / 2`
      with the division of JavaScript numbers), then the rest. */
  function TierOf(score: nat, total: nat): (t: Tier)
    ensures t == Master <==> score == total
    ensures t == Good <==> score != total && (score as real) >= (total as real) / 2.0
  {
    if score == total then Master
    else if 2 * score >= total then Good
    else KeepLearning
  }

  function Rank(t: Tier): (r: nat) {
    match t
    case KeepLearning => 0
    case Good => 1
    case Master => 2
  }

  /** A higher score never gives a lower tier, and the top tier means every
      question was answered right. */
  lemma TierMonotone(s1: nat, s2: nat, total: nat)
    requires s1 <= s2 <= total
    ensures Rank(TierOf(s1, total)) <= Rank(TierOf(s2, total))
    ensures TierOf(s2, total) == Master <==> s2 == total
  {
  }

  /** Two right answers out of three are a good result; no answer at all is
      the lowest tier whenever there is a question. */
  lemma ScoreExamples(n: nat)
    requires n >= 1
    ensures Score(map[0 := true, 1 := false, 2 := true]) == 2
    ensures TierOf(2, 3) == Good
    ensures TierOf(Score(map[]), n) == KeepLearning
  {
    var m := map[0 := true, 1 := false, 2 := true];
    assert RightAnswers(m) == {0, 2};
  }

  // ---------- navigation ----------

  /** The three navigation buttons: Previous disabled, Next hidden, Submit
      hidden. */
  datatype Nav = Nav(prevDisabled: bool, nextHidden: bool, submitHidden: bool)

  /** What `updateQuizNavigation` sets for question `current` of `n`. */
  function NavFor(current: int, n: nat): (nav: Nav)
    ensures nav.prevDisabled <==> current == 0
    ensures nav.nextHidden != nav.submitHidden
    ensures nav.nextHidden <==> current == n - 1
  {
    Nav(current == 0, current == n - 1, current != n - 1)
  }

  // ---------- the controller ----------

  class Quiz {
    const n: nat                    // number of `.quiz-question` elements
    const active: array<bool>       // each question's `active` class
    const options: array<QuizOption>
    var current: int                // currentQuestion
    var answers: map<nat, bool>     // userAnswers, a sparse array
    var nav: Nav
    var resultsHidden: bool         // `.quiz-results` has `hidden`
    var shownScore: nat             // text of #quiz-score
    var tier: Tier                  // message text and colour of #quiz-message

    predicate Valid()
      reads this, active, options
    {
      && active.Length == n
      && 0 <= current && (current < n || current == 0)
      && active[..] == OnlyActive(n, current)
      && Consistent(options[..], answers, n)
    }

    /** The page as loaded: the option records as the markup gives them,
        unselected and unmarked, and `showQuestion(0)` run. The navigation
        and the results panel start as the markup has them. */
    constructor (questionOf: seq<nat>, correctOf: seq<bool>, n0: nat, nav0: Nav, resultsHidden0: bool)
      requires |questionOf| == |correctOf|
      requires forall j :: 0 <= j < |questionOf| ==> questionOf[j] < n0
      ensures Valid()
      ensures n == n0 && current == 0 && answers == map[] && nav == nav0 && resultsHidden == resultsHidden0
      ensures options.Length == |questionOf|
      ensures forall j :: 0 <= j < |questionOf| ==>
                options[j] == QuizOption(questionOf[j], correctOf[j], false, false, false)
    {
      n := n0;
      var m := |questionOf|;
      active := new bool[n0](i => i == 0);
      options := new QuizOption[m](j =>
        if 0 <= j < m then QuizOption(questionOf[j], correctOf[j], false, false, false)
        else QuizOption(0, false, false, false, false));
      current, answers, nav, resultsHidden := 0, map[], nav0, resultsHidden0;
      shownScore, tier := 0, Master;
      new;
      assert active[..] == OnlyActive(n, 0);
    }

    /** `showQuestion(index)`: only question `index` is active. */
    method ShowQuestion(index: int)
      requires active.Length == n
      modifies active
      ensures active[..] == OnlyActive(n, index)
    {
      var i := 0;
      while i < active.Length
        modifies active
        invariant 0 <= i <= active.Length
        invariant forall k :: 0 <= k < i ==> (active[k] <==> k == index)
      {
        active[i] := i == index;
        i := i + 1;
      }
    }

    /** `updateQuizNavigation`. */
    method UpdateNavigation()
      modifies this
      ensures nav == NavFor(current, n)
      ensures current == old(current) && answers == old(answers)
      ensures resultsHidden == old(resultsHidden) && shownScore == old(shownScore) && tier == old(tier)
    {
      nav := Nav(current == 0, current == n - 1, current != n - 1);
    }

    /** A click on option `o`: deselect its question's options, select it,
        record whether it is correct (overwriting an earlier answer), and
        update the navigation. */
    method SelectOption(o: nat)
      requires Valid() && o < options.Length
      modifies this, options
      ensures Valid()
      ensures options[..] == Select(old(options[..]), o)
      ensures answers == old(answers)[old(options[o]).question := old(options[o]).isCorrect]
      ensures current == old(current) && nav == NavFor(current, n)
      ensures resultsHidden == old(resultsHidden) && shownScore == old(shownScore) && tier == old(tier)
    {
      ghost var before := options[..];
      var q := options[o].question;
      var i := 0;
      while i < options.Length
        modifies options
        invariant 0 <= i <= options.Length
        invariant forall k :: 0 <= k < i ==>
                    options[k] == if before[k].question == q then before[k].(selected := false) else before[k]
        invariant forall k :: i <= k < options.Length ==> options[k] == before[k]
      {
        if options[i].question == q {
          options[i] := options[i].(selected := false);
        }
        i := i + 1;
      }
      options[o] := options[o].(selected := true);
      assert options[..] == Select(before, o);
      answers := answers[q := options[o].isCorrect];
      SelectConsistent(before, old(answers), n, o);
      UpdateNavigation();
    }

    /** "Próxima": move forward unless at the last question. */
    method Next()
      requires Valid()
      modifies this, active
      ensures Valid()
      ensures current == if old(current) < n - 1 then old(current) + 1 else old(current)
      ensures old(current) < n - 1 ==> nav == NavFor(current, n)
      ensures old(current) >= n - 1 ==> nav == old(nav)
      ensures answers == old(answers) && resultsHidden == old(resultsHidden)
      ensures shownScore == old(shownScore) && tier == old(tier)
    {
      if current < n - 1 {
        current := current + 1;
        ShowQuestion(current);
        UpdateNavigation();
      }
    }

    /** "Anterior": move back unless at the first question. */
    method Prev()
      requires Valid()
      modifies this, active
      ensures Valid()
      ensures current == if old(current) > 0 then old(current) - 1 else old(current)
      ensures old(current) > 0 ==> nav == NavFor(current, n)
      ensures old(current) == 0 ==> nav == old(nav)
      ensures answers == old(answers) && resultsHidden == old(resultsHidden)
      ensures shownScore == old(shownScore) && tier == old(tier)
    {
      if current > 0 {
        current := current - 1;
        ShowQuestion(current);
        UpdateNavigation();
      }
    }

    /** `showQuizResults`: show the score and its tier, unhide the results,
        and mark the options. */
    method ShowResults()
      requires Valid()
      modifies this, options
      ensures Valid()
      ensures shownScore == Score(answers) && shownScore <= n
      ensures tier == TierOf(shownScore, n) && !resultsHidden
      ensures options[..] == Annotate(old(options[..]))
      ensures current == old(current) && answers == old(answers) && nav == old(nav)
    {
      var score := Score(answers);
      ScoreBound(answers, n);
      shownScore := score;
      tier := TierOf(score, n);
      resultsHidden := false;
      ghost var before := options[..];
      MarkOptions();
      AnnotateConsistent(before, answers, n);
    }

    /** `correct` on every correct option, `incorrect` on every selected
        wrong one. */
    method MarkOptions()
      modifies options
      ensures options[..] == Annotate(old(options[..]))
    {
      ghost var before := options[..];
      var i := 0;
      while i < options.Length
        invariant 0 <= i <= options.Length
        invariant forall k :: 0 <= k < i ==> options[k] == Mark(before[k])
        invariant forall k :: i <= k < options.Length ==> options[k] == before[k]
      {
        var x := options[i];
        if x.isCorrect {
          options[i] := x.(correct := true);
        } else if x.selected {
          options[i] := x.(incorrect := true);
        }
        i := i + 1;
      }
      assert options[..] == Annotate(before);
    }

    /** "Refazer Quiz": back to the first question with no answers, the
        results hidden, and every option unselected and unmarked. */
    method Restart()
      requires Valid()
      modifies this, active, options
      ensures Valid()
      ensures current == 0 && answers == map[] && resultsHidden
      ensures active[..] == OnlyActive(n, 0) && nav == NavFor(0, n)
      ensures options[..] == ClearMarks(old(options[..]))
      ensures shownScore == old(shownScore) && tier == old(tier)
    {
      current := 0;
      answers := map[];
      resultsHidden := true;
      ShowQuestion(current);
      UpdateNavigation();
      ghost var before := options[..];
      var i := 0;
      while i < options.Length
        modifies options
        invariant 0 <= i <= options.Length
        invariant forall k :: 0 <= k < i ==>
                    options[k] == before[k].(selected := false, correct := false, incorrect := false)
        invariant forall k :: i <= k < options.Length ==> options[k] == before[k]
      {
        options[i] := options[i].(selected := false, correct := false, incorrect := false);
        i := i + 1;
      }
      assert options[..] == ClearMarks(before);
    }
  }
}
