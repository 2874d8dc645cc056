/** The four-step script creation wizard (components/ScriptGenerator.tsx).
    Each call to the text-generation service is an external step whose reply,
    a payload or a failure, is passed in as a parameter. */
module ScriptGenerator {
  import opened Types
  import opened Filtering
  import Dashboard
  import PracticeMode

  datatype Step = Question | KoreanDraft | EnglishScript | Review

  /** An English version offered by the service, with its label (the `label` field). */
  datatype EnglishSample = EnglishSample(caption: string, text: string, logicFlow: seq<string>)

  /** The English version the learner picked (the label is dropped). */
  datatype EnglishVersion = EnglishVersion(text: string, logicFlow: seq<string>)

  /** The settled outcome of one call to the generation service. */
  datatype Reply<T> = Delivered(value: T) | Failed

  /** What is sent to the service to ask for Korean answer plans. */
  datatype KoreanRequest = KoreanRequest(question: string, mastered: seq<ScriptItem>)

  const QuestionError: string := "Failed to generate question."
  const KoreanError: string := "Failed to generate Korean samples."
  const EnglishError: string := "Failed to generate English scripts."

  /** A script counts as mastered once it has more successes than failures. */
  predicate IsMastered(s: ScriptItem)
  {
    s.stats.successCount > s.stats.failCount
  }

  /** The mastered scripts, passed to the service as familiar material. */
  function Mastered(scripts: seq<ScriptItem>): seq<ScriptItem>
  {
    Filter(scripts, IsMastered)
  }

  /** `Mastered` keeps exactly the scripts with more successes than failures,
      each as often as it occurs, in library order. */
  lemma {:induction false} MasteredSpec(scripts: seq<ScriptItem>)
    ensures forall x :: x in Mastered(scripts) <==> x in scripts && IsMastered(x)
    ensures forall x :: multiset(Mastered(scripts))[x] == if IsMastered(x) then multiset(scripts)[x] else 0
    ensures forall i :: 0 <= i < |Mastered(scripts)| ==> PracticeMode.Score(Mastered(scripts)[i]) > 0
  {
    FilterMembership(scripts, IsMastered);
    FilterCount(scripts, IsMastered);
  }

  /** Order is kept: the mastered part of a split library is the mastered
      part of the first half followed by that of the second. */
  lemma {:induction false} MasteredAppend(a: seq<ScriptItem>, b: seq<ScriptItem>)
    ensures Mastered(a + b) == Mastered(a) + Mastered(b)
  {
    FilterAppend(a, b, IsMastered);
  }

  /** The script saved at the end of the wizard. */
  function NewScript(id: string, question: string, korean: string, english: EnglishVersion, now: int): ScriptItem
  {
    ScriptItem(id, question, korean, english.text, english.logicFlow, now,
               Stats(0, 0, None))
  }

  /** A new script starts with no practice history: it is due at every
      moment, is not mastered, and has the neutral score 0. */
  lemma NewScriptFresh(id: string, question: string, korean: string, english: EnglishVersion, now: int, t: int)
    ensures var s := NewScript(id, question, korean, english, now);
      && s.stats.successCount == 0 && s.stats.failCount == 0 && s.stats.lastPracticedAt == None
      && s.englishScript == english.text && s.logicFlow == english.logicFlow
      && Dashboard.IsDue(s, t) && !IsMastered(s) && PracticeMode.Score(s) == 0
  {
  }

  class Generator {
    var step: Step
    var error: Option<string>
    var question: string
    var koreanSamples: seq<string>
    var selectedKorean: string
    var englishSamples: seq<EnglishSample>
    var selectedEnglish: Option<EnglishVersion>

    /** What the wizard's steps guarantee: a Korean plan is chosen only from
        the offered ones and before English is generated, an English version
        only from the offered ones, and the review step always has one. */
    ghost predicate Valid()
      reads this
    {
      && (selectedKorean != "" ==> step != Question && selectedKorean in koreanSamples)
      && (step == EnglishScript || step == Review ==> selectedKorean != "")
      && (selectedEnglish.Some? ==> step == EnglishScript || step == Review)
      && (selectedEnglish.Some? ==>
            exists e :: e in englishSamples && selectedEnglish.value == EnglishVersion(e.text, e.logicFlow))
      && (step == Review ==> selectedEnglish.Some?)
    }

    constructor ()
      ensures Valid()
      ensures step == Question && error == None && question == ""
      ensures koreanSamples == [] && selectedKorean == ""
      ensures englishSamples == [] && selectedEnglish == None
    {
      step := Question;
      error := None;
      question := "";
      koreanSamples := [];
      selectedKorean := "";
      englishSamples := [];
      selectedEnglish := None;
    }

    /** Asks for a (new) interview question: on mount and on "Skip". The
        error is cleared first; a failure keeps the old question. */
    method FetchQuestion(reply: Reply<string>)
      requires Valid() && step == Question
      modifies this`question, this`error
      ensures Valid() && step == Question
      ensures reply.Delivered? ==> question == reply.value && error == None
      ensures reply.Failed? ==> question == old(question) && error == Some(QuestionError)
    {
      error := None;
      match reply
      case Delivered(q) => question := q;
      case Failed => error := Some(QuestionError);
    }

    /** "Next: Plan Content". Sends the question and the mastered scripts;
        only a delivered reply moves on to KoreanDraft. An earlier error is
        not cleared. */
    method GenerateKorean(existingScripts: seq<ScriptItem>, reply: Reply<seq<string>>) returns (request: KoreanRequest)
      requires Valid() && step == Question
      modifies this`koreanSamples, this`step, this`error
      ensures Valid()
      ensures request == KoreanRequest(question, Mastered(existingScripts))
      ensures reply.Delivered? ==>
        koreanSamples == reply.value && step == KoreanDraft && error == old(error)
      ensures reply.Failed? ==>
        koreanSamples == old(koreanSamples) && step == Question && error == Some(KoreanError)
    {
      request := KoreanRequest(question, Mastered(existingScripts));
      match reply
      case Delivered(samples) =>
        koreanSamples := samples;
        step := KoreanDraft;
      case Failed =>
        error := Some(KoreanError);
    }

    /** A click on one of the offered Korean plans. */
    method SelectKorean(index: nat)
      requires Valid() && step == KoreanDraft && index < |koreanSamples|
      modifies this`selectedKorean
      ensures Valid() && selectedKorean == koreanSamples[index]
    {
      selectedKorean := koreanSamples[index];
    }

    /** "Create English Script". Does nothing, and sends nothing, while no
        Korean plan is selected; otherwise sends the plan, and only a
        delivered reply moves on to EnglishScript. */
    method GenerateEnglish(reply: Reply<seq<EnglishSample>>) returns (request: Option<string>)
      requires Valid() && step == KoreanDraft
      modifies this`englishSamples, this`step, this`error
      ensures Valid()
      ensures selectedKorean == "" ==> request == None && unchanged(this)
      ensures selectedKorean != "" ==> request == Some(selectedKorean)
      ensures selectedKorean != "" && reply.Delivered? ==>
        englishSamples == reply.value && step == EnglishScript && error == old(error)
      ensures selectedKorean != "" && reply.Failed? ==>
        englishSamples == old(englishSamples) && step == KoreanDraft && error == Some(EnglishError)
    {
      if selectedKorean == "" {
        return None;
      }
      request := Some(selectedKorean);
      match reply
      case Delivered(scripts) =>
        englishSamples := scripts;
        step := EnglishScript;
      case Failed =>
        error := Some(EnglishError);
    }

    /** A click on one of the offered English versions. */
    method SelectEnglish(index: nat)
      requires Valid() && step == EnglishScript && index < |englishSamples|
      modifies this`selectedEnglish
      ensures Valid()
      ensures selectedEnglish == Some(EnglishVersion(englishSamples[index].text, englishSamples[index].logicFlow))
    {
      var item := englishSamples[index];
      selectedEnglish := Some(EnglishVersion(item.text, item.logicFlow));
      assert item in englishSamples;
    }

    /** "Next: Review", disabled until an English version is selected. */
    method GoToReview()
      requires Valid() && step == EnglishScript
      modifies this`step
      ensures Valid()
      ensures step == if selectedEnglish.Some? then Review else EnglishScript
    {
      if selectedEnglish.Some? {
        step := Review;
      }
    }

    /** "Save to My Library": the new script handed to the library, or None
        when the question, the Korean plan or the English version is missing.
        The fresh id and the clock reading are parameters. */
    method Save(id: string, now: int) returns (saved: Option<ScriptItem>)
      requires Valid() && step == Review
      ensures saved.Some? <==> question != "" && selectedKorean != "" && selectedEnglish.Some?
      ensures saved.Some? <==> question != ""
      ensures saved.Some? ==>
        saved.value == NewScript(id, question, selectedKorean, selectedEnglish.value, now)
    {
      if question == "" || selectedKorean == "" || selectedEnglish.None? {
        return None;
      }
      saved := Some(NewScript(id, question, selectedKorean, selectedEnglish.value, now));
    }
  }
}
