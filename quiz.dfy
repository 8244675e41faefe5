/**
 * The service quiz: answers recorded per question, the vote count over the
 * chosen options, the stable ranking that keeps the three most voted
 * services, and the reset.
 */
module Quiz {
  import opened Wrappers
  import Collections

  datatype Option_ = Option_(id: string, services: seq<string>)
  datatype Question = Question(id: string, options: seq<Option_>)

  /** A service of the fetched services data. */
  datatype Service = Service(id: string, slug: string, title: string, shortDescription: string, tags: seq<string>)

  /** The active tab: a question number, or the results. */
  datatype Tab = QuestionTab(n: int) | Results

  /** The quiz's five questions, their options and the services each option votes for. */
  const Questions: seq<Question> := [
    Question("1", [
      Option_("a", ["ai-chatbots"]), Option_("b", ["predictive-analytics"]),
      Option_("c", ["computer-vision"]), Option_("d", ["process-automation"]),
      Option_("e", ["ai-strategy"])]),
    Question("2", [
      Option_("a", ["ai-strategy", "ai-training"]), Option_("b", ["ai-strategy", "predictive-analytics"]),
      Option_("c", ["ai-strategy"]), Option_("d", ["predictive-analytics", "computer-vision"]),
      Option_("e", ["ai-training"])]),
    Question("3", [
      Option_("a", ["ai-chatbots", "computer-vision", "predictive-analytics"]),
      Option_("b", ["computer-vision", "process-automation", "predictive-analytics"]),
      Option_("c", ["predictive-analytics", "process-automation", "ai-chatbots"]),
      Option_("d", ["computer-vision", "predictive-analytics", "ai-chatbots"]),
      Option_("e", ["ai-strategy", "ai-training"])]),
    Question("4", [
      Option_("a", ["ai-chatbots", "process-automation"]), Option_("b", ["predictive-analytics", "computer-vision"]),
      Option_("c", ["ai-strategy", "ai-training"]), Option_("d", ["ai-strategy"]),
      Option_("e", ["ai-strategy", "ai-training"])]),
    Question("5", [
      Option_("a", ["ai-chatbots", "ai-training"]), Option_("b", ["predictive-analytics", "process-automation"]),
      Option_("c", ["computer-vision", "ai-strategy"]), Option_("d", ["ai-strategy"]),
      Option_("e", ["ai-strategy", "ai-training"])])
  ]

  const TopCount: nat := 3

  /** `options.find(o => o.id === answerId)`. */
  function FindOption(options: seq<Option_>, answerId: string): (o: Option<Option_>)
    ensures o.Some? ==> o.value in options && o.value.id == answerId
    ensures o.None? ==> forall i :: 0 <= i < |options| ==> options[i].id != answerId
  {
    if options == [] then None
    else if options[0].id == answerId then Some(options[0])
    else FindOption(options[1..], answerId)
  }

  /** The services the answer to `q` votes for; nothing when `q` is unanswered or the answer names no option. */
  function Chosen(answers: map<string, string>, q: Question): seq<string>
  {
    if q.id !in answers then []
    else match FindOption(q.options, answers[q.id])
      case Some(o) => o.services
      case None => []
  }

  /**
   * Every vote, question by question in the order of `qs`. Question ids are
   * "1" to "5", which `Object.entries` lists in ascending numeric order, so
   * this is the order in which the source visits the answers; answers to
   * any other key find no question and cast no vote.
   */
  function Votes(answers: map<string, string>, qs: seq<Question>): seq<string>
  {
    if qs == [] then [] else Votes(answers, qs[..|qs| - 1]) + Chosen(answers, qs[|qs| - 1])
  }

  /** An answer stored under a key that is no question id changes no vote. */
  lemma {:induction false} VotesIgnoreUnknown(answers: map<string, string>, qs: seq<Question>, key: string, answerId: string)
    requires forall i :: 0 <= i < |qs| ==> qs[i].id != key
    ensures Votes(answers[key := answerId], qs) == Votes(answers, qs)
  {
    if qs != [] {
      VotesIgnoreUnknown(answers, qs[..|qs| - 1], key, answerId);
    }
  }

  /** Without answers there are no votes. */
  lemma {:induction false} NoAnswersNoVotes(qs: seq<Question>)
    ensures Votes(map[], qs) == []
  {
    if qs != [] {
      NoAnswersNoVotes(qs[..|qs| - 1]);
    }
  }

  /** The inner loop of the count: one more vote for each service of a chosen option. */
  method AddVotes(counts: Collections.Counter<string>, ghost done: seq<string>, chosen: seq<string>)
    returns (updated: Collections.Counter<string>)
    requires counts == Collections.Tally(done)
    ensures updated == Collections.Tally(done + chosen)
  {
    updated := counts;
    assert done + chosen[..0] == done;
    var k := 0;
    while k < |chosen|
      invariant 0 <= k <= |chosen|
      invariant updated == Collections.Tally(done + chosen[..k])
    {
      Collections.TallyAppendSnoc(done, chosen, k);
      updated := Collections.Bump(updated, chosen[k]);
      k := k + 1;
    }
    assert chosen[..k] == chosen;
  }

  /**
   * The counting half of `calculateResults`: for each answered question, in
   * order, every service of the chosen option gets one more vote. The keys
   * are the voted services in first-vote order, each with its number of votes.
   */
  method CountVotes(answers: map<string, string>, questions: seq<Question>) returns (counts: Collections.Counter<string>)
    ensures counts == Collections.Tally(Votes(answers, questions))
    ensures Collections.Keys(counts) == Collections.Distinct(Votes(answers, questions))
    ensures forall i :: 0 <= i < |counts| ==> counts[i].1 == multiset(Votes(answers, questions))[counts[i].0]
  {
    counts := [];
    var i := 0;
    while i < |questions|
      invariant 0 <= i <= |questions|
      invariant counts == Collections.Tally(Votes(answers, questions[..i]))
    {
      assert questions[..i + 1][..i] == questions[..i];
      var chosen := Chosen(answers, questions[i]);
      var done := Votes(answers, questions[..i]);
      counts := AddVotes(counts, done, chosen);
      assert Votes(answers, questions[..i + 1]) == done + chosen;
      i := i + 1;
    }
    assert questions[..|questions|] == questions;
    Collections.TallyCounts(Votes(answers, questions));
  }

  /** The count of a counter entry. */
  function Count(e: (string, nat)): int
  {
    e.1
  }

  /**
   * `Object.entries(counts).sort((a, b) => b[1] - a[1]).map(([id]) => id).slice(0, 3)`:
   * the ids of at most three entries of highest count, ties in counter order.
   */
  function TopIds(counts: Collections.Counter<string>): (ids: seq<string>)
    ensures |ids| <= TopCount && |ids| <= |counts|
    ensures |counts| >= TopCount ==> |ids| == TopCount
  {
    Collections.Keys(Collections.Take(Collections.SortDesc(counts, Count), TopCount))
  }

  /**
   * The ranking behind `TopIds`: it reorders the counter by non-increasing
   * count, and entries with equal counts keep their counter order.
   */
  lemma Ranking(counts: Collections.Counter<string>, c: int)
    ensures var ranked := Collections.SortDesc(counts, Count);
      && multiset(ranked) == multiset(counts)
      && Collections.SortedDesc(ranked, Count)
      && Collections.WithKey(ranked, Count, c) == Collections.WithKey(counts, Count, c)
      && TopIds(counts) == Collections.Keys(ranked)[..|TopIds(counts)|]
  {
    Collections.SortDescStable(counts, Count, c);
  }

  /** `data.services.find(service => service.id === id)`. */
  function FindService(services: seq<Service>, id: string): (s: Option<Service>)
    ensures s.Some? ==> s.value in services && s.value.id == id
    ensures s.None? ==> forall i :: 0 <= i < |services| ==> services[i].id != id
  {
    if services == [] then None
    else if services[0].id == id then Some(services[0])
    else FindService(services[1..], id)
  }

  /** `ids.map(find).filter(Boolean)`: the services of the ids found, in id order; the rest are dropped. */
  function LookUp(services: seq<Service>, ids: seq<string>): (r: seq<Service>)
    ensures |r| <= |ids|
    ensures forall s :: s in r ==> s in services && s.id in ids
  {
    if ids == [] then []
    else
      var rest := LookUp(services, ids[1..]);
      match FindService(services, ids[0])
      case Some(s) => [s] + rest
      case None => rest
  }

  /** When every id names a service, the lookup keeps them all, one service per id and in id order. */
  lemma {:induction false} LookUpAllFound(services: seq<Service>, ids: seq<string>)
    requires forall i :: 0 <= i < |ids| ==> FindService(services, ids[i]).Some?
    ensures var r := LookUp(services, ids);
      |r| == |ids| && forall i :: 0 <= i < |ids| ==> r[i].id == ids[i]
  {
    if ids != [] {
      var tail := ids[1..];
      forall i | 0 <= i < |tail|
        ensures FindService(services, tail[i]).Some?
      {
        assert tail[i] == ids[i + 1];
      }
      LookUpAllFound(services, tail);
      var rest := LookUp(services, tail);
      assert FindService(services, ids[0]).Some?;
      var r := [FindService(services, ids[0]).value] + rest;
      assert LookUp(services, ids) == r;
      forall i | 0 <= i < |ids|
        ensures r[i].id == ids[i]
      {
        if i > 0 {
          assert r[i] == rest[i - 1] && tail[i - 1] == ids[i];
        }
      }
    }
  }

  /** Whether an id names one of the services. */
  function Found(services: seq<Service>): string -> bool
  {
    (id: string) => FindService(services, id).Some?
  }

  /**
   * The lookup against the two steps of the source taken apart: the ids
   * that name a service, in id order, each replaced by the service it finds.
   * So every found id keeps its service, and only missing ids are dropped.
   */
  lemma {:induction false} LookUpFound(services: seq<Service>, ids: seq<string>)
    ensures var found, r := Collections.Filter(ids, Found(services)), LookUp(services, ids);
      |r| == |found| && forall i :: 0 <= i < |r| ==> FindService(services, found[i]) == Some(r[i])
  {
    if ids != [] {
      LookUpFound(services, ids[1..]);
      LookUpFoundStep(services, ids);
    }
  }

  /** The step of `LookUpFound` from the ids after the first to all of them. */
  lemma {:induction false} LookUpFoundStep(services: seq<Service>, ids: seq<string>)
    requires ids != []
    requires var found, r := Collections.Filter(ids[1..], Found(services)), LookUp(services, ids[1..]);
      |r| == |found| && forall i :: 0 <= i < |r| ==> FindService(services, found[i]) == Some(r[i])
    ensures var found, r := Collections.Filter(ids, Found(services)), LookUp(services, ids);
      |r| == |found| && forall i :: 0 <= i < |r| ==> FindService(services, found[i]) == Some(r[i])
  {
    var p := Found(services);
    var tail, rest := Collections.Filter(ids[1..], p), LookUp(services, ids[1..]);
    if p(ids[0]) {
      var s := FindService(services, ids[0]).value;
      assert Collections.Filter(ids, p) == [ids[0]] + tail;
      assert LookUp(services, ids) == [s] + rest;
      FoundCons(services, ids[0], s, tail, rest);
    } else {
      assert Collections.Filter(ids, p) == tail && LookUp(services, ids) == rest;
    }
  }

  /** A found id in front of ids paired with their services keeps the pairing. */
  lemma {:induction false} FoundCons(services: seq<Service>, id: string, s: Service, ids: seq<string>, found: seq<Service>)
    requires FindService(services, id) == Some(s)
    requires |found| == |ids| && forall i :: 0 <= i < |found| ==> FindService(services, ids[i]) == Some(found[i])
    ensures var all, r := [id] + ids, [s] + found;
      |r| == |all| && forall i :: 0 <= i < |r| ==> FindService(services, all[i]) == Some(r[i])
  {
    var all, r := [id] + ids, [s] + found;
    forall i | 0 <= i < |r|
      ensures FindService(services, all[i]) == Some(r[i])
    {
      if i > 0 {
        assert r[i] == found[i - 1] && all[i] == ids[i - 1];
      }
    }
  }

  /** The services `calculateResults` shows: those found among the three most voted ids. */
  method QuizResults(answers: map<string, string>, services: seq<Service>) returns (results: seq<Service>)
    ensures results == LookUp(services, TopIds(Collections.Tally(Votes(answers, Questions))))
    ensures |results| <= TopCount
  {
    var counts := CountVotes(answers, Questions);
    var ids := TopIds(counts);
    results := LookUp(services, ids);
  }

  /** The quiz page's state. `answeredCount` is the number the progress percentage is computed from. */
  class Page {
    var activeTab: Tab
    var answers: map<string, string>
    var results: seq<Service>
    var answeredCount: nat

    /** The initial state: question 1, nothing answered. */
    constructor()
      ensures activeTab == QuestionTab(1) && answers == map[] && results == [] && answeredCount == 0
    {
      activeTab := QuestionTab(1);
      answers := map[];
      results := [];
      answeredCount := 0;
    }

    /**
     * `handleAnswerSelect`: record the answer, overwriting an earlier one;
     * count the answered questions; move to the next question tab while
     * below the number of questions (the results tab parses as NaN and
     * stays put).
     */
    method HandleAnswerSelect(questionId: string, answerId: string)
      modifies this
      ensures answers == old(answers)[questionId := answerId]
      ensures answeredCount == |answers.Keys|
      ensures answeredCount == |old(answers).Keys| + (if questionId in old(answers) then 0 else 1)
      ensures old(activeTab).QuestionTab? && old(activeTab).n < |Questions| ==> activeTab == QuestionTab(old(activeTab).n + 1)
      ensures !(old(activeTab).QuestionTab? && old(activeTab).n < |Questions|) ==> activeTab == old(activeTab)
      ensures results == old(results)
    {
      answers := answers[questionId := answerId];
      answeredCount := |answers.Keys|;
      if questionId in old(answers) {
        assert answers.Keys == old(answers.Keys);
      } else {
        assert answers.Keys == old(answers.Keys) + {questionId};
      }
      if activeTab.QuestionTab? && activeTab.n < |Questions| {
        activeTab := QuestionTab(activeTab.n + 1);
      }
    }

    /**
     * `calculateResults`: nothing happens without services data; otherwise
     * the results become the found services among the three most voted ids
     * and the results tab opens.
     */
    method CalculateResults(data: Option<seq<Service>>)
      modifies this
      ensures data.None? ==> results == old(results) && activeTab == old(activeTab)
      ensures data.Some? ==> activeTab == Results
      ensures data.Some? ==> results == LookUp(data.value, TopIds(Collections.Tally(Votes(answers, Questions))))
      ensures data.Some? ==> |results| <= TopCount
      ensures unchanged(this`answers, this`answeredCount)
    {
      if data.None? {
        return;
      }
      results := QuizResults(answers, data.value);
      activeTab := Results;
    }

    /** `resetQuiz`: back to the initial state. */
    method ResetQuiz()
      modifies this
      ensures activeTab == QuestionTab(1) && answers == map[] && results == [] && answeredCount == 0
    {
      answers := map[];
      results := [];
      answeredCount := 0;
      activeTab := QuestionTab(1);
    }
  }
}
