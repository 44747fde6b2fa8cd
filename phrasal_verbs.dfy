/**
 * The phrasal-verb quiz generator: the fixed table of thirty verbs, the
 * Fisher–Yates shuffle, and the construction of one multiple-choice question
 * per verb.
 *
 * Every call of the shuffle draws one random index per step. The model takes
 * the draws as a parameter `rand: Rand`: step `i` swaps positions `i` and
 * `rand(i)`, which may be any integer in `0..i`, the values that
 * `Math.floor(Math.random() * (i + 1))` can produce.
 */
module PhrasalVerbs {

  /** One row of the verb table. */
  datatype PhrasalVerb = PhrasalVerb(id: string, verb: string, meaning: string, example: string)

  /** One multiple-choice question. `answerIndex` is what `findIndex` gives:
      the first position of the correct meaning among `options`, or -1. */
  datatype Question = Question(question: string, options: seq<string>, answerIndex: int)

  /** The random draws of one shuffle: step `i` swaps with `rand(i)`, some
      position in `0..i`. */
  type Rand = rand: nat -> nat | forall i: nat :: rand(i) <= i witness i => i

  /** The thirty phrasal verbs the quiz is built from, in table order. */
  const PhrasalVerbsData: seq<PhrasalVerb> :=
    [
      PhrasalVerb("1", "Ask out", "Birine çıkma teklif etmek", "He finally asked her out to dinner."),
      PhrasalVerb("2", "Back down", "Geri adım atmak, iddiasından vazgeçmek", "She refused to back down in the argument."),
      PhrasalVerb("3", "Break down", "Arızalanmak; kendini tutamayıp ağlamak", "The car broke down on the highway."),
      PhrasalVerb("4", "Bring up", "Bir konuyu açmak; çocuk yetiştirmek", "Don't bring up politics at the family dinner."),
      PhrasalVerb("5", "Call off", "İptal etmek", "They had to call off the meeting due to the storm."),
      PhrasalVerb("6", "Carry on", "Devam etmek", "Please carry on with your work."),
      PhrasalVerb("7", "Check in", "Otele veya havalimanına kayıt yaptırmak", "You need to check in at least two hours before your flight."),
      PhrasalVerb("8", "Come across", "Tesadüfen bulmak, karşılaşmak", "I came across an old photo while cleaning my room."),
      PhrasalVerb("9", "Count on", "Güvenmek, bel bağlamak", "You can always count on me for help."),
      PhrasalVerb("10", "Cut back on", "Azaltmak, kısmak", "I'm trying to cut back on sugary drinks."),
      PhrasalVerb("11", "Do over", "Yeniden yapmak, baştan yapmak", "The teacher told him to do the assignment over."),
      PhrasalVerb("12", "Drop out", "Okulu veya bir yarışı bırakmak", "He dropped out of college after just one semester."),
      PhrasalVerb("13", "Figure out", "Anlamak, çözmek", "I can't figure out how to solve this puzzle."),
      PhrasalVerb("14", "Find out", "Öğrenmek, keşfetmek", "I need to find out what time the movie starts."),
      PhrasalVerb("15", "Get along", "İyi geçinmek, anlaşmak", "My sister and I get along really well."),
      PhrasalVerb("16", "Get away", "Kaçmak, bir yerden ayrılmak", "We're hoping to get away for a few days next month."),
      PhrasalVerb("17", "Get over", "Bir hastalığı veya kötü bir durumu atlatmak", "It took him a long time to get over the flu."),
      PhrasalVerb("18", "Give up", "Vazgeçmek, pes etmek", "Don't give up on your dreams."),
      PhrasalVerb("19", "Go on", "Devam etmek", "The show must go on."),
      PhrasalVerb("20", "Hold on", "Beklemek; sıkı tutunmak", "Hold on a minute, I'll be right back."),
      PhrasalVerb("21", "Look after", "Bakmak, ilgilenmek", "Can you look after my cat while I'm on vacation?"),
      PhrasalVerb("22", "Look for", "Aramak", "I'm looking for my keys, have you seen them?"),
      PhrasalVerb("23", "Make up", "Uydurmak; barışmak; makyaj yapmak", "They had an argument, but they made up quickly."),
      PhrasalVerb("24", "Pass out", "Bayılmak", "He passed out from the heat."),
      PhrasalVerb("25", "Put off", "Ertelemek", "Never put off until tomorrow what you can do today."),
      PhrasalVerb("26", "Run out of", "Tüketmek, bitirmek", "We've run out of milk, I need to go to the store."),
      PhrasalVerb("27", "Set up", "Kurmak, ayarlamak", "We need to set up a new Wi-Fi router."),
      PhrasalVerb("28", "Take off", "Elbiseyi çıkarmak; uçağın havalanması", "The plane is scheduled to take off at 8:00 AM."),
      PhrasalVerb("29", "Turn down", "Reddetmek; sesi kısmak", "She turned down the job offer because the salary was too low."),
      PhrasalVerb("30", "Work out", "Anlamak, çözmek; spor yapmak", "I like to work out at the gym three times a week.")
    ]

  // ---------------------------------------------------------------------
  // The table
  // ---------------------------------------------------------------------

  /** The decimal numeral of `n`, the form the table's ids take. */
  function Numeral(n: nat): (s: string)
    ensures |s| >= 1 && (|s| == 1 <==> n < 10)
    decreases n
  {
    if n < 10 then [Digit(n)] else Numeral(n / 10) + [Digit(n % 10)]
  }

  function Digit(d: nat): (c: char)
    requires d < 10
    ensures '0' <= c <= '9' && c as int - '0' as int == d
  {
    ['0', '1', '2', '3', '4', '5', '6', '7', '8', '9'][d]
  }

  /** Different numbers have different numerals. */
  lemma {:induction false} NumeralInjective(m: nat, n: nat)
    requires Numeral(m) == Numeral(n)
    ensures m == n
    decreases m
  {
    if m >= 10 && n >= 10 {
      var sm, sn := Numeral(m), Numeral(n);
      assert Digit(m % 10) == sm[|sm| - 1] == sn[|sn| - 1] == Digit(n % 10);
      assert Numeral(m / 10) == sm[..|sm| - 1] == sn[..|sn| - 1] == Numeral(n / 10);
      NumeralInjective(m / 10, n / 10);
    } else if m < 10 && n < 10 {
      assert Digit(m) == Numeral(m)[0] == Numeral(n)[0] == Digit(n);
    }
  }

  /** Rows 0 to 29 carry the ids "1" to "30", checked five rows at a time. */
  lemma IdsOfRows0To4()
    ensures forall k :: 0 <= k < 5 ==> PhrasalVerbsData[k].id == Numeral(k + 1)
  {
  }

  lemma IdsOfRows5To9()
    ensures forall k :: 5 <= k < 10 ==> PhrasalVerbsData[k].id == Numeral(k + 1)
  {
  }

  lemma IdsOfRows10To14()
    ensures forall k :: 10 <= k < 15 ==> PhrasalVerbsData[k].id == Numeral(k + 1)
  {
  }

  lemma IdsOfRows15To19()
    ensures forall k :: 15 <= k < 20 ==> PhrasalVerbsData[k].id == Numeral(k + 1)
  {
  }

  lemma IdsOfRows20To24()
    ensures forall k :: 20 <= k < 25 ==> PhrasalVerbsData[k].id == Numeral(k + 1)
  {
  }

  lemma IdsOfRows25To29()
    ensures forall k :: 25 <= k < 30 ==> PhrasalVerbsData[k].id == Numeral(k + 1)
  {
  }

  predicate DistinctIds(table: seq<PhrasalVerb>)
  {
    forall i, j :: 0 <= i < j < |table| ==> table[i].id != table[j].id
  }

  /** The table has thirty rows, numbered "1" to "30" in order, so no two
      rows share an id. */
  lemma TableIds()
    ensures |PhrasalVerbsData| == 30
    ensures forall k :: 0 <= k < 30 ==> PhrasalVerbsData[k].id == Numeral(k + 1)
    ensures DistinctIds(PhrasalVerbsData)
  {
    IdsOfRows0To4();
    IdsOfRows5To9();
    IdsOfRows10To14();
    IdsOfRows15To19();
    IdsOfRows20To24();
    IdsOfRows25To29();
    forall i, j | 0 <= i < j < 30 ensures PhrasalVerbsData[i].id != PhrasalVerbsData[j].id {
      if PhrasalVerbsData[i].id == PhrasalVerbsData[j].id {
        NumeralInjective(i + 1, j + 1);
      }
    }
  }

  /** Rows "6" (Carry on) and "19" (Go on) have the same meaning. */
  lemma SharedMeaning()
    ensures PhrasalVerbsData[5].id == "6" && PhrasalVerbsData[18].id == "19"
    ensures PhrasalVerbsData[5].meaning == PhrasalVerbsData[18].meaning == "Devam etmek"
  {
  }

  // ---------------------------------------------------------------------
  // The shuffle
  // ---------------------------------------------------------------------

  /** `s` with the elements at `i` and `j` exchanged. */
  function Swap<T>(s: seq<T>, i: nat, j: nat): (r: seq<T>)
    requires i < |s| && j < |s|
    ensures |r| == |s| && r[i] == s[j] && r[j] == s[i]
  {
    s[i := s[j]][j := s[i]]
  }

  /** A swap exchanges the elements at `i` and `j` and leaves every other
      position as it was. */
  lemma SwapExchanges<T>(s: seq<T>, i: nat, j: nat)
    requires i < |s| && j < |s|
    ensures var r := Swap(s, i, j);
      && |r| == |s| && r[i] == s[j] && r[j] == s[i]
      && forall k :: 0 <= k < |s| && k != i && k != j ==> r[k] == s[k]
  {
  }

  lemma SwapPermutes<T>(s: seq<T>, i: nat, j: nat)
    requires i < |s| && j < |s|
    ensures multiset(Swap(s, i, j)) == multiset(s)
  {
  }

  /** Steps `i`, `i - 1`, ..., `1` of the shuffle loop, applied to `s`. */
  function ShuffleSteps<T>(s: seq<T>, i: int, rand: Rand): (r: seq<T>)
    requires i < |s|
    ensures |r| == |s|
    decreases i
  {
    if i <= 0 then s else ShuffleSteps(Swap(s, i, rand(i)), i - 1, rand)
  }

  lemma {:induction false} ShuffleStepsPermutes<T>(s: seq<T>, i: int, rand: Rand)
    requires i < |s|
    ensures multiset(ShuffleSteps(s, i, rand)) == multiset(s)
    decreases i
  {
    if i > 0 {
      SwapPermutes(s, i, rand(i));
      ShuffleStepsPermutes(Swap(s, i, rand(i)), i - 1, rand);
    }
  }

  /** What `shuffleArray` leaves in an array that held `s`. */
  function Shuffled<T>(s: seq<T>, rand: Rand): (r: seq<T>)
    ensures |r| == |s|
  {
    ShuffleSteps(s, |s| - 1, rand)
  }

  /** The shuffle is a permutation: same length, same elements with the same
      multiplicities, whatever the draws. */
  lemma ShuffledIsPermutation<T>(s: seq<T>, rand: Rand)
    ensures |Shuffled(s, rand)| == |s|
    ensures multiset(Shuffled(s, rand)) == multiset(s)
  {
    ShuffleStepsPermutes(s, |s| - 1, rand);
  }

  /** Arrays of length 0 or 1 come back unchanged: the loop never runs. */
  lemma ShortUnchanged<T>(s: seq<T>, rand: Rand)
    requires |s| <= 1
    ensures Shuffled(s, rand) == s
  {
  }

  /** Shuffling commutes with mapping each element: the same draws move the
      images exactly as they move the elements. */
  lemma {:induction false} ShuffleStepsMap<T, U>(s: seq<T>, i: int, rand: Rand, f: T -> U)
    requires i < |s|
    ensures Map(ShuffleSteps(s, i, rand), f) == ShuffleSteps(Map(s, f), i, rand)
    decreases i
  {
    if i > 0 {
      var j := rand(i);
      assert Map(Swap(s, i, j), f) == Swap(Map(s, f), i, j);
      ShuffleStepsMap(Swap(s, i, j), i - 1, rand, f);
    }
  }

  /** `s.map(f)`. */
  function Map<T, U>(s: seq<T>, f: T -> U): (r: seq<U>)
    ensures |r| == |s| && forall k :: 0 <= k < |s| ==> r[k] == f(s[k])
  {
    seq(|s|, k requires 0 <= k < |s| => f(s[k]))
  }

  /** The draw of step `i`, some position in `0..i`. The loop of
      ShuffleArray draws through this function so that the draw does not
      depend on the heap the loop changes. */
  function Draw(rand: Rand, i: nat): (j: nat)
    ensures j <= i
  {
    rand(i)
  }

  /** One step of the loop: swapping at `i` and going on from `i - 1`. */
  lemma ShuffleStep<T>(s: seq<T>, i: int, rand: Rand)
    requires 0 < i < |s|
    ensures ShuffleSteps(Swap(s, i, Draw(rand, i)), i - 1, rand) == ShuffleSteps(s, i, rand)
  {
  }

  /** `shuffleArray`: the Fisher–Yates loop, swapping in place from the last
      position down to position 1, returning the array it was given. */
  method ShuffleArray<T>(a: array<T>, rand: Rand) returns (r: array<T>)
    modifies a
    ensures r == a
    ensures a[..] == Shuffled(old(a[..]), rand)
    ensures multiset(a[..]) == multiset(old(a[..]))
  {
    ghost var target := Shuffled(a[..], rand);
    ghost var current := a[..];
    var i := a.Length - 1;
    while i > 0
      invariant -1 <= i < a.Length
      invariant a[..] == current
      invariant ShuffleSteps(current, i, rand) == target
    {
      var j := Draw(rand, i);
      a[i], a[j] := a[j], a[i];
      ShuffleStep(current, i, rand);
      current := Swap(current, i, j);
      i := i - 1;
    }
    assert current == target;
    ShuffledIsPermutation(old(a[..]), rand);
    r := a;
  }

  // ---------------------------------------------------------------------
  // The questions
  // ---------------------------------------------------------------------

  /** `options.findIndex(o => o === x)`. */
  function FindIndex(options: seq<string>, x: string): (k: int)
    ensures -1 <= k < |options|
    ensures k == -1 <==> x !in options
    ensures 0 <= k ==> options[k] == x && forall i :: 0 <= i < k ==> options[i] != x
    decreases |options|
  {
    if options == [] then -1
    else if options[0] == x then 0
    else
      var k := FindIndex(options[1..], x);
      if k == -1 then -1 else k + 1
  }

  /** The rows whose id differs from `id`, in table order. */
  function OthersThan(table: seq<PhrasalVerb>, id: string): (r: seq<PhrasalVerb>)
    ensures |r| <= |table|
    ensures forall e :: e in r <==> e in table && e.id != id
    decreases |table|
  {
    if table == [] then []
    else if table[0].id != id then [table[0]] + OthersThan(table[1..], id)
    else OthersThan(table[1..], id)
  }

  function Meaning(v: PhrasalVerb): string { v.meaning }

  /** `s.slice(0, n)`. */
  function Slice<T>(s: seq<T>, n: nat): (r: seq<T>)
    ensures |r| == Min(n, |s|) && r == s[..|r|]
  {
    if |s| <= n then s else s[..n]
  }

  function Min(a: nat, b: nat): nat { if a <= b then a else b }

  /** The question prompt for a verb. */
  function QuestionText(verb: string): (text: string)
    ensures |text| > |verb| + 1 && text[0] == '"' && text[1..|verb| + 1] == verb && text[|verb| + 1] == '"'
  {
    "\"" + verb + "\" ne anlama geliyor?"
  }

  /** The distractors of row `v`: the meanings of the rows with another id,
      shuffled, of which the first three are kept. */
  function Distractors(v: PhrasalVerb, table: seq<PhrasalVerb>, distractorRand: Rand): (d: seq<string>)
    ensures |d| == Min(3, |OthersThan(table, v.id)|)
  {
    Slice(Shuffled(Map(OthersThan(table, v.id), Meaning), distractorRand), 3)
  }

  /** The options of row `v`: its meaning and its distractors, shuffled. */
  function Options(v: PhrasalVerb, table: seq<PhrasalVerb>, distractorRand: Rand, optionRand: Rand): (options: seq<string>)
    ensures |options| == 1 + |Distractors(v, table, distractorRand)|
  {
    Shuffled([v.meaning] + Distractors(v, table, distractorRand), optionRand)
  }

  /** The question built for row `v`, with the first position of its meaning
      among the options as the answer. */
  function MakeQuestion(v: PhrasalVerb, table: seq<PhrasalVerb>, distractorRand: Rand, optionRand: Rand): (q: Question)
    ensures q.question == QuestionText(v.verb)
    ensures -1 <= q.answerIndex < |q.options| && (q.answerIndex == -1 <==> v.meaning !in q.options)
  {
    var options := Options(v, table, distractorRand, optionRand);
    Question(QuestionText(v.verb), options, FindIndex(options, v.meaning))
  }

  /** `generateQuestions`: shuffle a copy of the table with `order`, then
      build one question per row; the question at position `k` draws its
      distractors with `distractorRand(k)` and its option order with
      `optionRand(k)`. */
  function GenerateQuestions(table: seq<PhrasalVerb>, order: Rand, distractorRand: nat -> Rand, optionRand: nat -> Rand): (qs: seq<Question>)
    ensures |qs| == |table|
  {
    var shuffled := Shuffled(table, order);
    seq(|shuffled|, k requires 0 <= k < |shuffled| => MakeQuestion(shuffled[k], table, distractorRand(k), optionRand(k)))
  }

  // ---------------------------------------------------------------------
  // What the questions promise
  // ---------------------------------------------------------------------

  /** The distractors are `min(3, n)` meanings of rows with another id,
      where `n` is the number of such rows, each row used at most once. */
  lemma DistractorsFromOtherRows(v: PhrasalVerb, table: seq<PhrasalVerb>, distractorRand: Rand)
    ensures var d := Distractors(v, table, distractorRand);
      && |d| == Min(3, |OthersThan(table, v.id)|)
      && multiset(d) <= multiset(Map(OthersThan(table, v.id), Meaning))
  {
    var pool := Map(OthersThan(table, v.id), Meaning);
    ShuffledIsPermutation(pool, distractorRand);
    SliceIsSubMultiset(Shuffled(pool, distractorRand), 3);
  }

  lemma SliceIsSubMultiset<T>(s: seq<T>, n: nat)
    ensures multiset(Slice(s, n)) <= multiset(s)
  {
    var r := Slice(s, n);
    assert s == r + s[|r|..];
  }

  /** The options are the verb's meaning and its distractors, in some
      order. */
  lemma OptionsHoldMeaning(v: PhrasalVerb, table: seq<PhrasalVerb>, distractorRand: Rand, optionRand: Rand)
    ensures var d := Distractors(v, table, distractorRand);
      var options := Options(v, table, distractorRand, optionRand);
      && |options| == 1 + |d|
      && multiset(options) == multiset{v.meaning} + multiset(d)
      && v.meaning in options
  {
    var d := Distractors(v, table, distractorRand);
    ShuffledIsPermutation([v.meaning] + d, optionRand);
    assert multiset([v.meaning] + d) == multiset{v.meaning} + multiset(d);
    assert v.meaning in multiset(Options(v, table, distractorRand, optionRand));
  }

  /** In every question the options hold the verb's own meaning, and
      `answerIndex` is the first position holding it: never -1, and
      `options[answerIndex]` is the correct meaning. */
  lemma AnswerIndexIsCorrect(v: PhrasalVerb, table: seq<PhrasalVerb>, distractorRand: Rand, optionRand: Rand)
    ensures var q := MakeQuestion(v, table, distractorRand, optionRand);
      && q.question == QuestionText(v.verb)
      && 0 <= q.answerIndex < |q.options|
      && q.options[q.answerIndex] == v.meaning
      && forall k :: 0 <= k < q.answerIndex ==> q.options[k] != v.meaning
  {
    OptionsHoldMeaning(v, table, distractorRand, optionRand);
  }

  /** The options are the correct meaning plus `min(3, n)` distractors, where
      `n` is the number of rows with a different id; the distractors are
      meanings of such rows, each row used at most once. Nothing says the
      options are distinct: a distractor may carry the same text as the
      correct meaning (see RepeatedCorrectMeaning). */
  lemma OptionsAreMeaningAndDistractors(v: PhrasalVerb, table: seq<PhrasalVerb>, distractorRand: Rand, optionRand: Rand)
    ensures var q := MakeQuestion(v, table, distractorRand, optionRand);
      && |q.options| == 1 + Min(3, |OthersThan(table, v.id)|)
      && v.meaning in q.options
      && multiset(q.options) - multiset{v.meaning} <= multiset(Map(OthersThan(table, v.id), Meaning))
      && forall o :: o in q.options ==> o == v.meaning || exists e :: e in table && e.id != v.id && e.meaning == o
  {
    var options := Options(v, table, distractorRand, optionRand);
    var d := Distractors(v, table, distractorRand);
    DistractorsFromOtherRows(v, table, distractorRand);
    OptionsHoldMeaning(v, table, distractorRand, optionRand);
    assert multiset(options) - multiset{v.meaning} == multiset(d);
    forall o | o in options && o != v.meaning
      ensures exists e :: e in table && e.id != v.id && e.meaning == o
    {
      OptionFromPool(v, table, distractorRand, optionRand, o);
      MeaningOfOtherRow(table, v.id, o);
    }
  }

  /** An option other than the meaning is the meaning of some other row. */
  lemma OptionFromPool(v: PhrasalVerb, table: seq<PhrasalVerb>, distractorRand: Rand, optionRand: Rand, o: string)
    requires o in Options(v, table, distractorRand, optionRand) && o != v.meaning
    ensures o in Map(OthersThan(table, v.id), Meaning)
  {
    var d := Distractors(v, table, distractorRand);
    OptionsHoldMeaning(v, table, distractorRand, optionRand);
    assert o in multiset(d) by {
      assert o in multiset(Options(v, table, distractorRand, optionRand));
    }
    DistractorsFromOtherRows(v, table, distractorRand);
  }

  lemma MeaningOfOtherRow(table: seq<PhrasalVerb>, id: string, o: string)
    requires o in Map(OthersThan(table, id), Meaning)
    ensures exists e :: e in table && e.id != id && e.meaning == o
  {
    var others := OthersThan(table, id);
    var k :| 0 <= k < |others| && Map(others, Meaning)[k] == o;
    assert others[k] in others;
  }

  /** With pairwise distinct ids, exactly one row is set aside as "the
      correct verb". */
  lemma {:induction false} OthersThanCount(table: seq<PhrasalVerb>, v: PhrasalVerb)
    requires DistinctIds(table) && v in table
    ensures |OthersThan(table, v.id)| == |table| - 1
    decreases |table|
  {
    if table[0] == v {
      assert forall e :: e in table[1..] ==> e.id != v.id;
      OthersThanAll(table[1..], v.id);
    } else {
      assert table[0].id != v.id;
      assert DistinctIds(table[1..]);
      OthersThanCount(table[1..], v);
    }
  }

  lemma {:induction false} OthersThanAll(table: seq<PhrasalVerb>, id: string)
    requires forall e :: e in table ==> e.id != id
    ensures OthersThan(table, id) == table
    decreases |table|
  {
    if table != [] {
      OthersThanAll(table[1..], id);
    }
  }

  /** Every question built from the thirty-row table has four options. */
  lemma TableQuestionsHaveFourOptions(v: PhrasalVerb, distractorRand: Rand, optionRand: Rand)
    requires v in PhrasalVerbsData
    ensures |MakeQuestion(v, PhrasalVerbsData, distractorRand, optionRand).options| == 4
  {
    TableIds();
    OthersThanCount(PhrasalVerbsData, v);
    DistractorsFromOtherRows(v, PhrasalVerbsData, distractorRand);
    OptionsHoldMeaning(v, PhrasalVerbsData, distractorRand, optionRand);
  }

  /** `generateQuestions` yields the rows of the table in some order, one
      question per row, each question built from its own row. */
  lemma GenerateQuestionsPerRow(table: seq<PhrasalVerb>, order: Rand, distractorRand: nat -> Rand, optionRand: nat -> Rand)
    ensures var qs := GenerateQuestions(table, order, distractorRand, optionRand);
      && |qs| == |table|
      && exists rows: seq<PhrasalVerb> :: |rows| == |qs| && multiset(rows) == multiset(table)
           && forall k :: 0 <= k < |qs| ==> qs[k] == MakeQuestion(rows[k], table, distractorRand(k), optionRand(k))
  {
    var rows := Shuffled(table, order);
    ShuffledIsPermutation(table, order);
  }

  /** The prompts of the generated questions are exactly the table's
      prompts, each as often as in the table. */
  lemma GeneratedPrompts(table: seq<PhrasalVerb>, order: Rand, distractorRand: nat -> Rand, optionRand: nat -> Rand)
    ensures multiset(Map(GenerateQuestions(table, order, distractorRand, optionRand), Prompt)) == multiset(Map(table, VerbPrompt))
  {
    var qs := GenerateQuestions(table, order, distractorRand, optionRand);
    var rows := Shuffled(table, order);
    forall k | 0 <= k < |qs| ensures Map(qs, Prompt)[k] == Map(rows, VerbPrompt)[k] {
      PromptOfQuestion(rows[k], table, distractorRand(k), optionRand(k));
    }
    assert Map(qs, Prompt) == Map(rows, VerbPrompt);
    ShuffleStepsMap(table, |table| - 1, order, VerbPrompt);
    assert Map(rows, VerbPrompt) == Shuffled(Map(table, VerbPrompt), order);
    ShuffledIsPermutation(Map(table, VerbPrompt), order);
  }

  function Prompt(q: Question): string { q.question }

  lemma PromptOfQuestion(v: PhrasalVerb, table: seq<PhrasalVerb>, distractorRand: Rand, optionRand: Rand)
    ensures Prompt(MakeQuestion(v, table, distractorRand, optionRand)) == VerbPrompt(v)
  {
  }

  function VerbPrompt(v: PhrasalVerb): string { QuestionText(v.verb) }

  /** In a table with pairwise distinct ids every row occurs once. */
  lemma {:induction false} DistinctIdsOnce(table: seq<PhrasalVerb>, v: PhrasalVerb)
    requires DistinctIds(table) && v in table
    ensures multiset(table)[v] == 1
    decreases |table|
  {
    assert table == [table[0]] + table[1..];
    assert DistinctIds(table[1..]);
    if table[0] == v {
      assert v !in table[1..];
    } else {
      DistinctIdsOnce(table[1..], v);
    }
  }

  /** For the real table, every row is asked about exactly once, whatever
      the draws. */
  lemma EachVerbAskedOnce(order: Rand, v: PhrasalVerb)
    requires v in PhrasalVerbsData
    ensures multiset(Shuffled(PhrasalVerbsData, order))[v] == 1
  {
    TableIds();
    DistinctIdsOnce(PhrasalVerbsData, v);
    ShuffledIsPermutation(PhrasalVerbsData, order);
  }

  /** Removing the row with a given id from a table with distinct ids leaves
      the rows before and after it, in order. */
  lemma {:induction false} OthersThanRemovesOne(table: seq<PhrasalVerb>, p: nat)
    requires DistinctIds(table) && p < |table|
    ensures OthersThan(table, table[p].id) == table[..p] + table[p + 1..]
    decreases |table|
  {
    if p == 0 {
      assert forall e :: e in table[1..] ==> e.id != table[0].id;
      OthersThanAll(table[1..], table[0].id);
    } else {
      var id := table[p].id;
      var rest := table[1..];
      assert table[0].id != id;
      assert rest[p - 1] == table[p];
      DistinctIdsTail(table);
      OthersThanRemovesOne(rest, p - 1);
      DropAfterFirst(table, p);
    }
  }

  lemma DistinctIdsTail(table: seq<PhrasalVerb>)
    requires DistinctIds(table) && table != []
    ensures DistinctIds(table[1..])
  {
    forall i, j | 0 <= i < j < |table| - 1 ensures table[1..][i].id != table[1..][j].id {
      assert table[1..][i] == table[i + 1] && table[1..][j] == table[j + 1];
    }
  }

  /** Leaving out position `p > 0` keeps the first element in front. */
  lemma DropAfterFirst<T>(s: seq<T>, p: nat)
    requires 0 < p < |s|
    ensures s[..p] + s[p + 1..] == [s[0]] + (s[1..][..p - 1] + s[1..][p..])
  {
    assert s[..p] == [s[0]] + s[1..][..p - 1];
    assert s[p + 1..] == s[1..][p..];
  }

  /** One step whose draw is its own position changes nothing. */
  lemma InPlaceStep<T>(s: seq<T>, i: int, rand: Rand)
    requires 0 < i < |s| && rand(i) == i
    ensures ShuffleSteps(s, i, rand) == ShuffleSteps(s, i - 1, rand)
  {
    SwapSame(s, i);
  }

  lemma SwapSame<T>(s: seq<T>, i: nat)
    requires i < |s|
    ensures Swap(s, i, i) == s
  {
  }

  /** The draws that keep everything in place except at step 5, where they
      bring position 5 to the front. */
  const FrontFromFive: Rand := i => if i == 5 then 0 else i

  /** The draws that never move anything. */
  const KeepInPlace: Rand := i => i

  /** Under FrontFromFive, the steps from `i` down to 6 move nothing. */
  lemma {:induction false} FrontFromFiveHigh<T>(s: seq<T>, i: int)
    requires 5 <= i < |s|
    ensures ShuffleSteps(s, i, FrontFromFive) == ShuffleSteps(s, 5, FrontFromFive)
    decreases i
  {
    if i > 5 {
      InPlaceStep(s, i, FrontFromFive);
      FrontFromFiveHigh(s, i - 1);
    }
  }

  /** Under FrontFromFive, the steps from `i <= 4` down to 1 move nothing. */
  lemma {:induction false} FrontFromFiveLow<T>(s: seq<T>, i: int)
    requires i <= 4 && i < |s|
    ensures ShuffleSteps(s, i, FrontFromFive) == s
    decreases i
  {
    if i > 0 {
      InPlaceStep(s, i, FrontFromFive);
      FrontFromFiveLow(s, i - 1);
    }
  }

  /** With these draws the shuffle of a pool of at least six elements is
      the pool with positions 5 and 0 exchanged. */
  lemma FrontFromFiveSwaps<T>(pool: seq<T>)
    requires |pool| >= 6
    ensures Shuffled(pool, FrontFromFive) == Swap(pool, 5, 0)
  {
    FrontFromFiveHigh(pool, |pool| - 1);
    assert ShuffleSteps(pool, 5, FrontFromFive) == ShuffleSteps(Swap(pool, 5, 0), 4, FrontFromFive);
    FrontFromFiveLow(Swap(pool, 5, 0), 4);
  }

  /** Under KeepInPlace, the steps from `i` down to 1 move nothing. */
  lemma {:induction false} KeepInPlaceSteps<T>(s: seq<T>, i: int)
    requires i < |s|
    ensures ShuffleSteps(s, i, KeepInPlace) == s
    decreases i
  {
    if i > 0 {
      InPlaceStep(s, i, KeepInPlace);
      KeepInPlaceSteps(s, i - 1);
    }
  }

  /** Draws that always pick the current position leave any sequence as it
      was. */
  lemma KeepInPlaceIdentity<T>(s: seq<T>)
    ensures Shuffled(s, KeepInPlace) == s
  {
    KeepInPlaceSteps(s, |s| - 1);
  }

  /** In a table with distinct ids, the distractor pool of row `p` holds
      the meanings of the rows before `p` at their own positions. */
  lemma PoolBefore(table: seq<PhrasalVerb>, p: nat, q: nat)
    requires DistinctIds(table) && q < p < |table|
    ensures var pool := Map(OthersThan(table, table[p].id), Meaning);
      |pool| == |table| - 1 && pool[q] == table[q].meaning
  {
    OthersThanRemovesOne(table, p);
    assert (table[..p] + table[p + 1..])[q] == table[q];
  }

  /** In a table with distinct ids where row `p > 5` shares its meaning
      with row 5, some draws make the question on row `p` show its correct
      meaning twice in front, with `answerIndex` marking only the first. */
  lemma RepeatedMeaningIn(table: seq<PhrasalVerb>, p: nat)
    requires DistinctIds(table) && 5 < p < |table|
    requires table[5].meaning == table[p].meaning
    ensures var q := MakeQuestion(table[p], table, FrontFromFive, KeepInPlace);
      && |q.options| == 4
      && q.options[0] == q.options[1] == table[p].meaning
      && q.answerIndex == 0
  {
    var v := table[p];
    var d := Distractors(v, table, FrontFromFive);
    FrontDistractor(table, p);
    KeepInPlaceIdentity([v.meaning] + d);
    assert Options(v, table, FrontFromFive, KeepInPlace) == [v.meaning] + d;
  }

  /** Under these conditions the first distractor of row `p` is the meaning
      of row 5, brought to the front of the pool by the draws. */
  lemma FrontDistractor(table: seq<PhrasalVerb>, p: nat)
    requires DistinctIds(table) && 5 < p < |table|
    ensures var d := Distractors(table[p], table, FrontFromFive);
      |d| == 3 && d[0] == table[5].meaning
  {
    var pool := Map(OthersThan(table, table[p].id), Meaning);
    PoolBefore(table, p, 5);
    FrontFromFiveSwaps(pool);
    assert Distractors(table[p], table, FrontFromFive) == Slice(Swap(pool, 5, 0), 3);
  }

  /** Because distractors are filtered by id and not by text, the question
      on "Go on" (id "19") can show its correct meaning twice, the second
      time as the distractor taken from "Carry on" (id "6"); `answerIndex`
      then marks only the first copy, so choosing the second one scores
      nothing. */
  lemma RepeatedCorrectMeaning()
    ensures var q := MakeQuestion(PhrasalVerbsData[18], PhrasalVerbsData, FrontFromFive, KeepInPlace);
      && |q.options| == 4
      && q.options[0] == q.options[1] == "Devam etmek"
      && q.answerIndex == 0
  {
    TableIds();
    SharedMeaning();
    RepeatedMeaningIn(PhrasalVerbsData, 18);
  }
}
