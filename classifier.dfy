/** The domain classifier (ivy_intelligence/apps/opportunities/classifier.py):
    the seed corpus, the keyword fallback, and the lazily loaded model cache
    around an external predictor. Fitting, predicting and persisting the
    TF-IDF / logistic-regression pipeline belong to a library outside the
    model; what they return (or that they raise) is an input here. */
module Classifier {
  import opened Text
  import opened Wrappers
  import opened KeywordRules
  import opened OpportunityModels

  /** TRAINING_DATA: (text, domain code) pairs. */
  const TRAINING_DATA: seq<(string, string)> := [
    ("machine learning deep learning neural network artificial intelligence", "AI"),
    ("natural language processing computer vision transformer bert gpt", "AI"),
    ("reinforcement learning robotics autonomous systems AI research", "AI"),
    ("data science python tensorflow pytorch kaggle model training", "AI"),
    ("generative AI large language models diffusion models", "AI"),
    ("computer vision image recognition object detection YOLO", "AI"),
    ("NLP text classification sentiment analysis named entity recognition", "AI"),
    ("law legal policy regulation compliance constitutional rights", "LAW"),
    ("international law human rights cyber law intellectual property patent", "LAW"),
    ("jurisprudence litigation arbitration contract corporate law", "LAW"),
    ("criminal law public policy legal reform advocacy", "LAW"),
    ("moot court law school legal clinic internship bar", "LAW"),
    ("biomedical biology genetics genomics protein CRISPR drug discovery", "BIO"),
    ("clinical research medical trial pharmacology neuroscience", "BIO"),
    ("biochemistry molecular biology cell biology immunology", "BIO"),
    ("bioinformatics computational biology health data medicine", "BIO"),
    ("public health epidemiology global health disease prevention", "BIO"),
    ("electronics circuits VLSI semiconductor embedded systems", "ECE"),
    ("signal processing communication systems wireless 5G antenna", "ECE"),
    ("FPGA microcontroller Arduino IoT Internet of Things", "ECE"),
    ("power systems electrical engineering renewable energy solar", "ECE"),
    ("photonics optics laser electromagnetic fields", "ECE"),
    ("software engineering web development algorithms data structures", "CS"),
    ("cybersecurity network security blockchain cryptography", "CS"),
    ("cloud computing distributed systems operating systems", "CS"),
    ("database systems SQL NoSQL system design scalability", "CS"),
    ("open source programming hackathon coding competition", "CS"),
    ("entrepreneurship startup venture capital business strategy", "BUSINESS"),
    ("finance economics investment banking marketing management", "BUSINESS"),
    ("MBA leadership operations management consulting", "BUSINESS"),
    ("social entrepreneurship impact investing non-profit", "BUSINESS"),
    ("environment sustainability climate change renewable energy", "ENV"),
    ("ecology environmental policy carbon emissions green technology", "ENV"),
    ("water conservation biodiversity environmental science", "ENV"),
    ("arts humanities philosophy history social science", "OTHER"),
    ("music theater film media communication journalism", "OTHER"),
    ("education psychology sociology anthropology linguistics", "OTHER")
  ]

  /** The labels a model fitted on TRAINING_DATA can predict. */
  function TrainingLabels(): (labels: set<string>)
    ensures labels <= set c | c in DOMAIN_CODES
  {
    TrainingLabelsAreDomains();
    set i | 0 <= i < |TRAINING_DATA| :: TRAINING_DATA[i].1
  }

  /** Every label of the seed corpus is one of the eight domain codes. */
  lemma TrainingLabelsAreDomains()
    ensures forall i :: 0 <= i < |TRAINING_DATA| ==> TRAINING_DATA[i].1 in DOMAIN_CODES
  {
  }

  /** The keyword groups of `keyword_fallback`, in the order they are tried. */
  const DOMAIN_RULES: seq<Rule> := [
    Rule(["machine learning", "deep learning", "ai ", "neural", "nlp", "computer vision"], "AI"),
    Rule(["law", "legal", "policy", "rights", "regulation"], "LAW"),
    Rule(["biology", "medical", "health", "biomedical", "genetics", "clinical"], "BIO"),
    Rule(["electronics", "circuit", "vlsi", "embedded", "ece", "signal"], "ECE"),
    Rule(["software", "coding", "programming", "database", "cybersecurity"], "CS"),
    Rule(["business", "startup", "finance", "entrepreneurship", "mba"], "BUSINESS"),
    Rule(["environment", "climate", "sustainability", "ecology"], "ENV")
  ]

  /** `keyword_fallback`: the domain of the first keyword group found in the
      lower-cased text, OTHER when none is; always one of the eight codes. */
  function KeywordFallback(text: string): (domain: string)
    ensures domain in DOMAIN_CODES
  {
    FirstMatch(Lower(text), DOMAIN_RULES, "OTHER")
  }

  /** The fallback picks the earliest group with a keyword in the text, and
      OTHER exactly when no group has one. */
  lemma KeywordFallbackOrder(text: string, g: int)
    requires 0 <= g < |DOMAIN_RULES|
    requires Hits(Lower(text), DOMAIN_RULES, g)
    requires forall h :: 0 <= h < g ==> !Hits(Lower(text), DOMAIN_RULES, h)
    ensures KeywordFallback(text) == DOMAIN_RULES[g].code
  {
    FirstMatchIsEarliest(Lower(text), DOMAIN_RULES, "OTHER", g);
  }

  lemma KeywordFallbackOther(text: string)
    requires forall h :: 0 <= h < |DOMAIN_RULES| ==> !Hits(Lower(text), DOMAIN_RULES, h)
    ensures KeywordFallback(text) == "OTHER"
  {
    FirstMatchNoHit(Lower(text), DOMAIN_RULES, "OTHER");
  }

  /** Every keyword of the fallback is at least three characters long, so a
      text of one or two characters (such as "ai", which needs its trailing
      space to count) is OTHER. */
  lemma ShortTextIsOther(text: string)
    requires |text| < 3
    ensures KeywordFallback(text) == "OTHER"
  {
    forall h | 0 <= h < |DOMAIN_RULES| ensures !Hits(Lower(text), DOMAIN_RULES, h) {
      var ks := DOMAIN_RULES[h].keywords;
      forall i | 0 <= i < |ks| ensures !Contains(Lower(text), ks[i]) {
        TooLong(Lower(text), ks[i]);
      }
      NoKeywordOccurs(Lower(text), ks);
    }
    KeywordFallbackOther(text);
  }

  /** A text full of AI words is AI. */
  lemma NeuralNetworkIsAI()
    ensures KeywordFallback("neural network deep learning research") == "AI"
  {
    var t := "neural network deep learning research";
    NeuralNetworkIsLower();
    assert Hits(t, DOMAIN_RULES, 0) by {
      assert t[0..6] == "neural";
      OccursContains(t, "neural", 0);
      KeywordOccurs(t, DOMAIN_RULES[0].keywords, 3);
    }
    KeywordFallbackOrder(t, 0);
  }

  lemma NeuralNetworkIsLower()
    ensures Lower("neural network deep learning research") == "neural network deep learning research"
  {
    var t := "neural network deep learning research";
    forall i | 0 <= i < |t| ensures Lower(t)[i] == t[i] {
    }
  }

  /** "ai " counts with its trailing space. */
  lemma AiResearchIsAI()
    ensures KeywordFallback("ai research") == "AI"
  {
    var t := "ai research";
    assert Lower(t) == t by {
      LowerOfLower(t);
    }
    assert Hits(t, DOMAIN_RULES, 0) by {
      OccursContains(t, "ai ", 0);
      KeywordOccurs(t, DOMAIN_RULES[0].keywords, 2);
    }
    KeywordFallbackOrder(t, 0);
  }

  /** None of the AI keywords occurs in "climate policy"; "ai" occurs only
      without the trailing space. */
  lemma ClimatePolicyNotAI()
    ensures !Hits("climate policy", DOMAIN_RULES, 0)
  {
    var t := "climate policy";
    MissingChar(t, "machine learning", 3);
    MissingChar(t, "deep learning", 0);
    forall i | 0 <= i <= |t| - 3 ensures !OccursAt(t, "ai ", i) {
      assert t[i] != 'a' || t[i + 1] != 'i';
      assert t[i..i + 3][0] == t[i] && t[i..i + 3][1] == t[i + 1];
    }
    MissingChar(t, "neural", 0);
    MissingChar(t, "nlp", 0);
    MissingChar(t, "computer vision", 4);
    NoKeywordOccurs(t, DOMAIN_RULES[0].keywords);
  }

  /** "Climate Policy" is LAW, not ENV: the LAW group is tried first. */
  lemma ClimatePolicyIsLaw()
    ensures KeywordFallback("Climate Policy") == "LAW"
  {
    var t := "climate policy";
    assert Lower("Climate Policy") == t by {
      forall i | 0 <= i < |t| ensures Lower("Climate Policy")[i] == t[i] {
      }
    }
    ClimatePolicyNotAI();
    assert Hits(t, DOMAIN_RULES, 1) by {
      OccursContains(t, "policy", 8);
      KeywordOccurs(t, DOMAIN_RULES[1].keywords, 2);
    }
    KeywordFallbackOrder("Climate Policy", 1);
  }

  /** An artifact persisted by `joblib.dump` (a fitted vectorizer or classifier). */
  datatype Blob = Blob(version: nat)

  /** What the fitting and dumping in `train_model` does: it raises before
      anything is written, raises after the vectorizer file is written, or
      writes both files. */
  datatype TrainOutcome = FitFails | DumpFailsAfterVectorizer(vec: Blob) | Fitted(vec: Blob, clf: Blob)

  /** The machine-learning library as seen by this module: the outcome of a
      fit, whether `joblib.load` of a stored artifact succeeds (a corrupt or
      incompatible file raises), and the prediction and class probabilities
      for a lower-cased text given the loaded vectorizer and classifier
      (None: it raised). */
  datatype Library = Library(
    fit: TrainOutcome,
    loads: Blob -> bool,
    predict: (Blob, Blob, string) -> Option<string>,
    proba: (Blob, Blob, string) -> Option<seq<(string, real)>>)

  /** `joblib.load` of this file returns: the file exists and loads. */
  predicate Loadable(file: Option<Blob>, lib: Library)
  {
    file.Some? && lib.loads(file.value)
  }

  /** A library whose classifier was fitted on TRAINING_DATA predicts one of its labels. */
  ghost predicate PredictsTrainingLabels(lib: Library)
  {
    forall v, c, t :: lib.predict(v, c, t).Some? ==> lib.predict(v, c, t).value in TrainingLabels()
  }

  /** The label `classify_domain` gives with the cache in the given state. */
  function Classified(vec: Option<Blob>, clf: Option<Blob>, lib: Library, text: string): (domain: string)
    ensures vec.None? || clf.None? ==> domain == KeywordFallback(text)
    ensures vec.Some? && clf.Some? && lib.predict(vec.value, clf.value, Lower(text)).None? ==> domain == KeywordFallback(text)
    ensures vec.Some? && clf.Some? && lib.predict(vec.value, clf.value, Lower(text)).Some? ==>
              domain == lib.predict(vec.value, clf.value, Lower(text)).value
  {
    if vec.None? || clf.None? then KeywordFallback(text)
    else match lib.predict(vec.value, clf.value, Lower(text))
      case Some(d) => d
      case None => KeywordFallback(text)
  }

  /** With a library fitted on the seed corpus, the label is a domain code. */
  lemma ClassifiedIsDomain(vec: Option<Blob>, clf: Option<Blob>, lib: Library, text: string)
    requires PredictsTrainingLabels(lib)
    ensures Classified(vec, clf, lib, text) in DOMAIN_CODES
  {
    if vec.Some? && clf.Some? && lib.predict(vec.value, clf.value, Lower(text)).Some? {
      assert lib.predict(vec.value, clf.value, Lower(text)).value in TrainingLabels();
    }
  }

  /** A label `classify_domain` can produce for `text` with this library,
      whatever state the cache is in. */
  ghost predicate PossibleDomain(lib: Library, text: string, domain: string)
  {
    domain == KeywordFallback(text) || exists v, c :: lib.predict(v, c, Lower(text)) == Some(domain)
  }

  lemma ClassifiedIsPossible(vec: Option<Blob>, clf: Option<Blob>, lib: Library, text: string)
    ensures PossibleDomain(lib, text, Classified(vec, clf, lib, text))
  {
    if vec.Some? && clf.Some? && lib.predict(vec.value, clf.value, Lower(text)).Some? {
      assert lib.predict(vec.value, clf.value, Lower(text)) == Some(Classified(vec, clf, lib, text));
    }
  }

  /** `{cls: prob * 100 for cls, prob in zip(classes, probas)}` (later pairs win). */
  function PercentMap(pairs: seq<(string, real)>): (m: map<string, real>)
    ensures m.Keys == set i | 0 <= i < |pairs| :: pairs[i].0
  {
    if pairs == [] then map[]
    else
      var last := pairs[|pairs| - 1];
      var m := PercentMap(pairs[..|pairs| - 1])[last.0 := last.1 * 100.0];
      assert forall i :: 0 <= i < |pairs| - 1 ==> pairs[..|pairs| - 1][i] == pairs[i];
      m
  }

  /** The cached objects and the artifact files as one value: the state
      `_load_model` starts from and the state it leaves. */
  datatype CacheState = CacheState(vectorizer: Option<Blob>, classifier: Option<Blob>,
                                   vectorizerFile: Option<Blob>, modelFile: Option<Blob>)

  /** Both objects are cached, so `classify_domain` does not load. */
  predicate Full(s: CacheState)
  {
    s.vectorizer.Some? && s.classifier.Some?
  }

  /** The artifact files after the retrain `_load_model` starts with when
      either file is missing; `train_model` dumps the vectorizer first. */
  function Retrained(s: CacheState, lib: Library): CacheState
  {
    if s.vectorizerFile.Some? && s.modelFile.Some? then s
    else match lib.fit
      case FitFails => s
      case DumpFailsAfterVectorizer(v) => s.(vectorizerFile := Some(v))
      case Fitted(v, c) => s.(vectorizerFile := Some(v), modelFile := Some(c))
  }

  /** The state `_load_model` leaves: after the retrain, the vectorizer is
      loaded and then the classifier; the first load that raises ends it. */
  function Loaded(s: CacheState, lib: Library): CacheState
  {
    var t := Retrained(s, lib);
    t.(vectorizer := if Loadable(t.vectorizerFile, lib) then t.vectorizerFile else t.vectorizer,
       classifier := if Loadable(t.vectorizerFile, lib) && Loadable(t.modelFile, lib) then t.modelFile else t.classifier)
  }

  /** The state after the lazy load at the top of `classify_domain` and
      `get_confidence_scores`. */
  function Ready(s: CacheState, lib: Library): CacheState
  {
    if Full(s) then s else Loaded(s, lib)
  }

  /** Both files on disk and loadable: the first call caches exactly them. */
  lemma ReadyLoadsStoredFiles(s: CacheState, lib: Library)
    requires !Full(s) && Loadable(s.vectorizerFile, lib) && Loadable(s.modelFile, lib)
    ensures Ready(s, lib) == s.(vectorizer := s.vectorizerFile, classifier := s.modelFile)
    ensures Full(Ready(s, lib))
  {
  }

  /** A missing file and a successful retrain whose artifacts load: the
      first call writes both files and caches both objects. */
  lemma ReadyRetrainsMissingFiles(s: CacheState, lib: Library)
    requires !Full(s) && (s.vectorizerFile.None? || s.modelFile.None?)
    requires lib.fit.Fitted? && lib.loads(lib.fit.vec) && lib.loads(lib.fit.clf)
    ensures Ready(s, lib) == CacheState(Some(lib.fit.vec), Some(lib.fit.clf), Some(lib.fit.vec), Some(lib.fit.clf))
  {
  }

  /** A vectorizer file that is missing or does not load (after any retrain)
      leaves both cached objects as they were, so the next call tries again
      unless an earlier load had already filled both. */
  lemma ReadyKeepsCacheOnBadVectorizer(s: CacheState, lib: Library)
    requires !Loadable(Retrained(s, lib).vectorizerFile, lib)
    ensures Ready(s, lib).vectorizer == s.vectorizer && Ready(s, lib).classifier == s.classifier
  {
  }

  /** When both objects end up cached: they already were, or the vectorizer
      file loads and either the model file loads or an earlier classifier
      is still cached. */
  lemma ReadyFullIff(s: CacheState, lib: Library)
    ensures Full(Ready(s, lib)) <==>
              Full(s) || (Loadable(Retrained(s, lib).vectorizerFile, lib) &&
                          (Loadable(Retrained(s, lib).modelFile, lib) || s.classifier.Some?))
  {
  }

  /** The label of the first call when both stored files load is the one the
      stored model gives. */
  lemma FirstCallUsesStoredModel(s: CacheState, lib: Library, text: string)
    requires !Full(s) && Loadable(s.vectorizerFile, lib) && Loadable(s.modelFile, lib)
    ensures Classified(Ready(s, lib).vectorizer, Ready(s, lib).classifier, lib, text) ==
            Classified(s.vectorizerFile, s.modelFile, lib, text)
  {
    ReadyLoadsStoredFiles(s, lib);
  }

  /** The module-level cache (`_vectorizer`, `_classifier`) together with the
      two artifact files it is loaded from (None: the file is missing). */
  class DomainClassifier {
    var vectorizer: Option<Blob>
    var classifier: Option<Blob>
    var vectorizerFile: Option<Blob>
    var modelFile: Option<Blob>

    /** A fresh process: nothing cached, whatever files are on disk. */
    constructor (vectorizerFile: Option<Blob>, modelFile: Option<Blob>)
      ensures vectorizer == None && classifier == None
      ensures this.vectorizerFile == vectorizerFile && this.modelFile == modelFile
    {
      vectorizer := None;
      classifier := None;
      this.vectorizerFile := vectorizerFile;
      this.modelFile := modelFile;
    }

    function State(): CacheState
      reads this
    {
      CacheState(vectorizer, classifier, vectorizerFile, modelFile)
    }

    predicate Cached()
      reads this
    {
      Full(State())
    }

    /** `train_model`: never raises; True exactly when both artifacts were
        written. The vectorizer is dumped before the classifier, so a failed
        second dump leaves a new vectorizer file and the old model file. */
    method TrainModel(lib: Library) returns (ok: bool)
      modifies this`vectorizerFile, this`modelFile
      ensures ok <==> lib.fit.Fitted?
      ensures lib.fit.FitFails? ==> vectorizerFile == old(vectorizerFile) && modelFile == old(modelFile)
      ensures lib.fit.DumpFailsAfterVectorizer? ==> vectorizerFile == Some(lib.fit.vec) && modelFile == old(modelFile)
      ensures lib.fit.Fitted? ==> vectorizerFile == Some(lib.fit.vec) && modelFile == Some(lib.fit.clf)
    {
      match lib.fit {
        case FitFails =>
          ok := false;
        case DumpFailsAfterVectorizer(v) =>
          vectorizerFile := Some(v);
          ok := false;
        case Fitted(v, c) =>
          vectorizerFile := Some(v);
          modelFile := Some(c);
          ok := true;
      }
    }

    /** `_load_model`: retrains when either file is missing, then loads the
        vectorizer and then the classifier. A load that raises (a missing,
        corrupt or incompatible file) is logged and ends the load, leaving
        that cached object and the ones after it as they were. */
    method LoadModel(lib: Library)
      modifies this
      ensures old(vectorizerFile).Some? && old(modelFile).Some? ==>
                vectorizerFile == old(vectorizerFile) && modelFile == old(modelFile)
      ensures old(vectorizerFile).None? || old(modelFile).None? ==>
                && (lib.fit.FitFails? ==> vectorizerFile == old(vectorizerFile) && modelFile == old(modelFile))
                && (lib.fit.DumpFailsAfterVectorizer? ==> vectorizerFile == Some(lib.fit.vec) && modelFile == old(modelFile))
                && (lib.fit.Fitted? ==> vectorizerFile == Some(lib.fit.vec) && modelFile == Some(lib.fit.clf))
      ensures vectorizer == if Loadable(vectorizerFile, lib) then vectorizerFile else old(vectorizer)
      ensures classifier == if Loadable(vectorizerFile, lib) && Loadable(modelFile, lib) then modelFile else old(classifier)
      ensures State() == Loaded(old(State()), lib)
    {
      if modelFile.None? || vectorizerFile.None? {
        var _ := TrainModel(lib);
      }
      if vectorizerFile.Some? && lib.loads(vectorizerFile.value) {
        vectorizer := vectorizerFile;
        if modelFile.Some? && lib.loads(modelFile.value) {
          classifier := modelFile;
        }
      }
    }

    /** `classify_domain`: loads the model while either cached object is
        missing, never raises, and answers with the predictor's label when
        both objects are cached and prediction succeeds, with
        `keyword_fallback(text)` otherwise. Once both are cached nothing is
        reloaded. */
    method ClassifyDomain(text: string, lib: Library) returns (domain: string)
      modifies this
      ensures State() == Ready(old(State()), lib)
      ensures domain == Classified(vectorizer, classifier, lib, text)
      ensures PossibleDomain(lib, text, domain)
      ensures old(Cached()) ==> unchanged(this)
      ensures Loadable(old(vectorizerFile), lib) && Loadable(old(modelFile), lib) ==> Cached()
      ensures !old(Cached()) && old(vectorizerFile).Some? && old(modelFile).Some? && !Loadable(old(vectorizerFile), lib) ==>
                vectorizer == old(vectorizer) && classifier == old(classifier)
    {
      if vectorizer.None? || classifier.None? {
        LoadModel(lib);
      }
      if vectorizer.None? || classifier.None? {
        domain := KeywordFallback(text);
      } else {
        match lib.predict(vectorizer.value, classifier.value, Lower(text)) {
          case Some(d) => domain := d;
          case None => domain := KeywordFallback(text);
        }
      }
      ClassifiedIsPossible(vectorizer, classifier, lib, text);
    }

    /** `get_confidence_scores`: label -> percentage, or {} when the model is
        unavailable after a load attempt or scoring raises. */
    method GetConfidenceScores(text: string, lib: Library) returns (scores: map<string, real>)
      modifies this
      ensures State() == Ready(old(State()), lib)
      ensures !Cached() ==> scores == map[]
      ensures Cached() && lib.proba(vectorizer.value, classifier.value, Lower(text)).None? ==> scores == map[]
      ensures Cached() && lib.proba(vectorizer.value, classifier.value, Lower(text)).Some? ==>
                scores == PercentMap(lib.proba(vectorizer.value, classifier.value, Lower(text)).value)
      ensures old(Cached()) ==> unchanged(this)
    {
      if vectorizer.None? || classifier.None? {
        LoadModel(lib);
      }
      if vectorizer.None? || classifier.None? {
        return map[];
      }
      match lib.proba(vectorizer.value, classifier.value, Lower(text)) {
        case Some(ps) => scores := PercentMap(ps);
        case None => scores := map[];
      }
    }
  }
}
