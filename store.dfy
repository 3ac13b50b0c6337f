/**
 * The benchmark's results file: `models` maps a model id to its temperature groups, each
 * temperature (a string key in the file) maps a question to the list of answers generated
 * for it, in generation order.
 */
module Store {
  import opened Wrappers
  import opened Dicts

  /** One stored answer. Every key the scripts read with a default is optional. */
  datatype Answer = Answer(
    answerNum: Option<int>,                 // 'answer_num'
    text: Option<string>,                   // 'answer'
    coherence: Option<real>,                // 'coherence_score', 0..100
    embeddingDissimilarity: Option<real>,   // 'embedding_dissimilarity_score', 0..1
    llmDissimilarity: Option<real>,         // 'llm_dissimilarity_score', 0..1
    processingTime: Option<real>)           // 'processing_time'

  type Questions = Dict<seq<Answer>>
  type Temps = Dict<Questions>
  type Models = Dict<Temps>

  /** A results file: its `models` entry when present, and the names of its other keys. */
  datatype ResultsDoc = ResultsDoc(models: Option<Models>, otherKeys: seq<string>)

  /** Both scores that plot.py indexes directly are present. */
  predicate Scored(a: Answer) {
    a.coherence.Some? && a.embeddingDissimilarity.Some?
  }

  predicate QuestionsScored(qs: Questions) {
    forall i, j :: 0 <= i < |qs| && 0 <= j < |qs[i].1| ==> Scored(qs[i].1[j])
  }

  predicate TempsScored(ts: Temps) {
    forall i :: 0 <= i < |ts| ==> QuestionsScored(ts[i].1)
  }

  predicate ModelsScored(ms: Models) {
    forall i :: 0 <= i < |ms| ==> TempsScored(ms[i].1)
  }

  /** Number of answers stored under the questions of one temperature. */
  function QuestionsSize(qs: Questions): nat {
    if qs == [] then 0 else QuestionsSize(qs[..|qs| - 1]) + |qs[|qs| - 1].1|
  }

  /** Number of answers stored under all temperatures of one model. */
  function TempsSize(ts: Temps): nat {
    if ts == [] then 0 else TempsSize(ts[..|ts| - 1]) + QuestionsSize(ts[|ts| - 1].1)
  }

  /** Number of (temperature, question) runs stored for one model. */
  function RunCount(ts: Temps): nat {
    if ts == [] then 0 else RunCount(ts[..|ts| - 1]) + |ts[|ts| - 1].1|
  }

  /** Every answer carries a coherence score (what `plot_exit_reasons` indexes). */
  predicate ModelsCoherent(ms: Models) {
    forall i, j, k, l :: 0 <= i < |ms| && 0 <= j < |ms[i].1| && 0 <= k < |ms[i].1[j].1| && 0 <= l < |ms[i].1[j].1[k].1|
      ==> ms[i].1[j].1[k].1[l].coherence.Some?
  }

  /** Each temperature group's questions are distinct keys, as in a dictionary parsed from JSON. */
  predicate TempsKeyed(ts: Temps) {
    forall i :: 0 <= i < |ts| ==> DistinctKeys(ts[i].1)
  }

  /** Every level of the `models` map has distinct keys. */
  predicate ModelsKeyed(ms: Models) {
    DistinctKeys(ms) && forall i :: 0 <= i < |ms| ==> DistinctKeys(ms[i].1) && TempsKeyed(ms[i].1)
  }
}
