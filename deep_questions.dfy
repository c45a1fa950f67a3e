/**
 * The catalogue of suggested questions and its two queries. The table is
 * written as the source groups it, one constant per section.
 */
module DeepQuestions {
  import opened Wrappers
  import opened Categories

  /** One suggested question; `prompt` is the guiding text put into the story box. */
  datatype DeepQuestion = DeepQuestion(id: int, category: Category, text: string, prompt: string)

  /** Childhood and origins. */
  const ChildhoodAndOrigins: seq<DeepQuestion> := [
    DeepQuestion(1, Childhood,
      "¿Cuál es tu primer recuerdo de tu infancia?",
      "Describe ese momento: ¿Dónde estabas? ¿Qué sentiste? ¿Quiénes estaban contigo?"),
    DeepQuestion(2, Childhood,
      "¿Cómo era la casa donde creciste?",
      "Describe cada detalle: ¿Qué habitaciones tenía? ¿Qué olores recuerdas? ¿Cuál era tu lugar favorito?"),
    DeepQuestion(3, Childhood,
      "¿Qué comida te hacía tu mamá que nunca has olvidado?",
      "¿Cómo la preparaba? ¿En qué ocasiones? ¿Por qué te gustaba tanto?"),
    DeepQuestion(4, Work,
      "¿Cuál fue tu primer trabajo y cuánto te pagaban?",
      "¿Cómo conseguiste ese trabajo? ¿Qué hacías? ¿Qué aprendiste?"),
    DeepQuestion(5, Childhood,
      "¿A qué jugabas cuando eras niño/a?",
      "¿Con quién jugabas? ¿Dónde? ¿Cuál era tu juego favorito?"),
    DeepQuestion(6, Childhood,
      "¿Cómo era tu escuela cuando eras niño/a?",
      "Describe tu salón de clases, tus maestros, tus amigos. ¿Qué materia te gustaba más?")
  ]

  /** Family and love. */
  const FamilyAndLove: seq<DeepQuestion> := [
    DeepQuestion(7, Family,
      "¿Cómo conociste a mamá/papá?",
      "Cuenta toda la historia: ¿Dónde fue? ¿Qué dijiste?"),
    DeepQuestion(8, Family,
      "¿Qué recuerdas del día que nací?",
      "¿Dónde estabas? ¿Qué sentiste? ¿Qué pensaste cuando me viste por primera vez?"),
    DeepQuestion(9, Family,
      "¿Qué esperabas para mí cuando era niño?",
      "¿Qué soñabas que sería mi vida? ¿Qué te hacía feliz de verme crecer?"),
    DeepQuestion(10, Family,
      "¿Cuál es tu recuerdo favorito de cuando yo era pequeño?",
      "¿Qué hacíamos juntos? ¿Por qué ese momento quedó grabado en tu memoria?"),
    DeepQuestion(11, Family,
      "¿Cómo eran tus padres (mis abuelos)?",
      "¿Cómo era su personalidad? ¿Qué les gustaba hacer? ¿Qué recuerdos tienes con ellos?"),
    DeepQuestion(12, Family,
      "¿Qué tradición familiar te gustaría que nunca se pierda?",
      "¿Por qué es importante esa tradición? ¿De dónde viene? ¿Cómo la celebraban?")
  ]

  /** Life wisdom and deep reflection. */
  const LifeWisdom: seq<DeepQuestion> := [
    DeepQuestion(13, Other,
      "¿Cuál fue el momento más difícil de tu vida y cómo lo superaste?",
      "Cuenta qué pasó, cómo te sentiste, y qué te dio fuerzas para seguir adelante."),
    DeepQuestion(14, Other,
      "Si pudieras decirle algo a tu yo de 20 años, ¿qué sería?",
      "¿Qué consejo le darías? ¿Qué le dirías que no se preocupe tanto?"),
    DeepQuestion(15, Other,
      "¿Qué es algo que hiciste que nadie sabe?",
      "Puede ser algo travieso, algo valiente, o simplemente algo que guardaste para ti..."),
    DeepQuestion(16, Other,
      "¿De qué momento de tu vida te sientes más orgulloso?",
      "¿Qué lograste? ¿Por qué significa tanto para ti?"),
    DeepQuestion(17, Family,
      "¿Qué lección de tus padres nunca olvidaste?",
      "¿Qué te enseñaron? ¿Cómo cambió tu vida esa lección?"),
    DeepQuestion(18, Other,
      "¿Cuál ha sido el día más feliz de tu vida?",
      "Describe ese día: ¿Qué pasó? ¿Quién estaba contigo? ¿Por qué fue tan especial?")
  ]

  /** Work and passions. */
  const WorkAndPassions: seq<DeepQuestion> := [
    DeepQuestion(19, Work,
      "¿Cuál fue el trabajo que más disfrutaste en tu vida?",
      "¿Por qué te gustaba tanto? ¿Qué aprendiste? ¿Qué historias tienes de ese tiempo?"),
    DeepQuestion(20, Other,
      "¿Qué te apasionaba hacer cuando eras joven?",
      "¿Era un hobby, un deporte, un arte? ¿Por qué te hacía feliz?")
  ]

  /** Sensory and specific memories. */
  const SensoryMemories: seq<DeepQuestion> := [
    DeepQuestion(21, Childhood,
      "¿Qué sonido de tu infancia nunca has olvidado?",
      "¿Qué era ese sonido? ¿Dónde lo escuchabas? ¿Qué recuerdos trae?"),
    DeepQuestion(22, Childhood,
      "¿Qué olor te transporta inmediatamente a tu niñez?",
      "¿Qué es ese olor? ¿A qué momento o lugar te lleva?"),
    DeepQuestion(23, Childhood,
      "¿Cuál era tu lugar favorito cuando eras joven?",
      "¿Por qué ibas ahí? ¿Qué hacías? ¿Cómo te sentías en ese lugar?"),
    DeepQuestion(24, Other,
      "¿Qué canción o música te recuerda a tu juventud?",
      "¿Quién la cantaba? ¿Dónde la escuchabas? ¿Qué recuerdos trae?")
  ]

  /** Connection with Ivan. */
  const Connection: seq<DeepQuestion> := [
    DeepQuestion(25, Other,
      "¿Qué quieres que sepa sobre ti que nunca te he preguntado?",
      "Puede ser cualquier cosa: una historia, un sentimiento, un secreto, un sueño..."),
    DeepQuestion(26, Family,
      "¿Qué te hubiera gustado decirme antes de que pasaran estos 27 años?",
      "Sin juzgar el pasado, solo comparte lo que llevas en el corazón."),
    DeepQuestion(27, Family,
      "¿Qué esperas para nuestro futuro juntos?",
      "¿Qué te gustaría que hagamos? ¿Qué conversaciones quieres tener? ¿Qué tiempo quieres compartir?")
  ]

  const DeepQuestionsTable: seq<DeepQuestion> :=
    ChildhoodAndOrigins + FamilyAndLove + LifeWisdom + WorkAndPassions + SensoryMemories + Connection

  /** `a` is `b` with some entries left out and the rest in the same order. */
  predicate Subsequence(a: seq<DeepQuestion>, b: seq<DeepQuestion>)
    decreases |b|
  {
    || a == []
    || (b != [] && (Subsequence(a, b[1..]) || (a[0] == b[0] && Subsequence(a[1..], b[1..]))))
  }

  /** `filter` by category. */
  function FilterByCategory(qs: seq<DeepQuestion>, c: Category): (r: seq<DeepQuestion>)
    decreases |qs|
  {
    if |qs| == 0 then []
    else if qs[0].category == c then [qs[0]] + FilterByCategory(qs[1..], c)
    else FilterByCategory(qs[1..], c)
  }

  /** `getQuestionsByCategory`. */
  function GetQuestionsByCategory(c: Category): seq<DeepQuestion> {
    FilterByCategory(DeepQuestionsTable, c)
  }

  /** The filter keeps exactly the entries of category `c`, in their order. */
  lemma {:induction false} FilterKeepsExactlyCategory(qs: seq<DeepQuestion>, c: Category)
    ensures forall q :: q in FilterByCategory(qs, c) <==> q in qs && q.category == c
    ensures Subsequence(FilterByCategory(qs, c), qs)
    decreases |qs|
  {
    if |qs| > 0 {
      FilterKeepsExactlyCategory(qs[1..], c);
      assert qs == [qs[0]] + qs[1..];
      if qs[0].category == c {
        assert ([qs[0]] + FilterByCategory(qs[1..], c))[1..] == FilterByCategory(qs[1..], c);
      }
    }
  }

  /** Filtering distributes over concatenation. */
  lemma {:induction false} FilterConcat(a: seq<DeepQuestion>, b: seq<DeepQuestion>, c: Category)
    ensures FilterByCategory(a + b, c) == FilterByCategory(a, c) + FilterByCategory(b, c)
    decreases |a|
  {
    if |a| > 0 {
      FilterConcat(a[1..], b, c);
      assert (a + b)[0] == a[0] && (a + b)[1..] == a[1..] + b;
      var fa, fb := FilterByCategory(a[1..], c), FilterByCategory(b, c);
      assert [a[0]] + (fa + fb) == ([a[0]] + fa) + fb;
    } else {
      assert a + b == b;
    }
  }

  /** The categories of `qs`, in order. */
  function CategoriesOf(qs: seq<DeepQuestion>): seq<Category> {
    seq(|qs|, i requires 0 <= i < |qs| => qs[i].category)
  }

  /** How many times `c` occurs in `cs`. */
  function CountOf(cs: seq<Category>, c: Category): nat
    decreases |cs|
  {
    if |cs| == 0 then 0 else (if cs[0] == c then 1 else 0) + CountOf(cs[1..], c)
  }

  /** The filter keeps one entry per occurrence of `c` among the categories. */
  lemma {:induction false} FilterLengthIsCount(qs: seq<DeepQuestion>, c: Category)
    ensures |FilterByCategory(qs, c)| == CountOf(CategoriesOf(qs), c)
    decreases |qs|
  {
    if |qs| > 0 {
      FilterLengthIsCount(qs[1..], c);
      assert CategoriesOf(qs)[1..] == CategoriesOf(qs[1..]);
    }
  }

  /** The five category filters together keep every entry exactly once. */
  lemma {:induction false} FiltersPartition(qs: seq<DeepQuestion>)
    ensures |FilterByCategory(qs, Childhood)| + |FilterByCategory(qs, Family)| + |FilterByCategory(qs, Pets)|
            + |FilterByCategory(qs, Work)| + |FilterByCategory(qs, Other)| == |qs|
    decreases |qs|
  {
    if |qs| > 0 {
      FiltersPartition(qs[1..]);
    }
  }

  lemma ChildhoodAndOriginsCategories()
    ensures CategoriesOf(ChildhoodAndOrigins) == [Childhood, Childhood, Childhood, Work, Childhood, Childhood]
  {
  }

  lemma FamilyAndLoveCategories()
    ensures CategoriesOf(FamilyAndLove) == [Family, Family, Family, Family, Family, Family]
  {
  }

  lemma LifeWisdomCategories()
    ensures CategoriesOf(LifeWisdom) == [Other, Other, Other, Other, Family, Other]
  {
  }

  lemma WorkAndPassionsCategories()
    ensures CategoriesOf(WorkAndPassions) == [Work, Other]
  {
  }

  lemma SensoryMemoriesCategories()
    ensures CategoriesOf(SensoryMemories) == [Childhood, Childhood, Childhood, Other]
  {
  }

  lemma ConnectionCategories()
    ensures CategoriesOf(Connection) == [Other, Family, Family]
  {
  }

  /** Filtering the six sections together is filtering each and concatenating. */
  lemma FilterSections(a: seq<DeepQuestion>, b: seq<DeepQuestion>, c: seq<DeepQuestion>,
                       d: seq<DeepQuestion>, e: seq<DeepQuestion>, f: seq<DeepQuestion>, cat: Category)
    ensures |FilterByCategory(a + b + c + d + e + f, cat)|
         == |FilterByCategory(a, cat)| + |FilterByCategory(b, cat)| + |FilterByCategory(c, cat)|
          + |FilterByCategory(d, cat)| + |FilterByCategory(e, cat)| + |FilterByCategory(f, cat)|
  {
    FilterConcat(a + b + c + d + e, f, cat);
    FilterConcat(a + b + c + d, e, cat);
    FilterConcat(a + b + c, d, cat);
    FilterConcat(a + b, c, cat);
    FilterConcat(a, b, cat);
  }

  lemma ChildhoodAndOriginsCounts()
    ensures |FilterByCategory(ChildhoodAndOrigins, Childhood)| == 5
    ensures |FilterByCategory(ChildhoodAndOrigins, Family)| == 0
    ensures |FilterByCategory(ChildhoodAndOrigins, Pets)| == 0
    ensures |FilterByCategory(ChildhoodAndOrigins, Work)| == 1
    ensures |FilterByCategory(ChildhoodAndOrigins, Other)| == 0
  {
    ChildhoodAndOriginsCategories();
    FilterLengthIsCount(ChildhoodAndOrigins, Childhood);
    FilterLengthIsCount(ChildhoodAndOrigins, Family);
    FilterLengthIsCount(ChildhoodAndOrigins, Pets);
    FilterLengthIsCount(ChildhoodAndOrigins, Work);
    FilterLengthIsCount(ChildhoodAndOrigins, Other);
  }

  lemma FamilyAndLoveCounts()
    ensures |FilterByCategory(FamilyAndLove, Childhood)| == 0
    ensures |FilterByCategory(FamilyAndLove, Family)| == 6
    ensures |FilterByCategory(FamilyAndLove, Pets)| == 0
    ensures |FilterByCategory(FamilyAndLove, Work)| == 0
    ensures |FilterByCategory(FamilyAndLove, Other)| == 0
  {
    FamilyAndLoveCategories();
    FilterLengthIsCount(FamilyAndLove, Childhood);
    FilterLengthIsCount(FamilyAndLove, Family);
    FilterLengthIsCount(FamilyAndLove, Pets);
    FilterLengthIsCount(FamilyAndLove, Work);
    FilterLengthIsCount(FamilyAndLove, Other);
  }

  lemma LifeWisdomCounts()
    ensures |FilterByCategory(LifeWisdom, Childhood)| == 0
    ensures |FilterByCategory(LifeWisdom, Family)| == 1
    ensures |FilterByCategory(LifeWisdom, Pets)| == 0
    ensures |FilterByCategory(LifeWisdom, Work)| == 0
    ensures |FilterByCategory(LifeWisdom, Other)| == 5
  {
    LifeWisdomCategories();
    FilterLengthIsCount(LifeWisdom, Childhood);
    FilterLengthIsCount(LifeWisdom, Family);
    FilterLengthIsCount(LifeWisdom, Pets);
    FilterLengthIsCount(LifeWisdom, Work);
    FilterLengthIsCount(LifeWisdom, Other);
  }

  lemma WorkAndPassionsCounts()
    ensures |FilterByCategory(WorkAndPassions, Childhood)| == 0
    ensures |FilterByCategory(WorkAndPassions, Family)| == 0
    ensures |FilterByCategory(WorkAndPassions, Pets)| == 0
    ensures |FilterByCategory(WorkAndPassions, Work)| == 1
    ensures |FilterByCategory(WorkAndPassions, Other)| == 1
  {
    WorkAndPassionsCategories();
    FilterLengthIsCount(WorkAndPassions, Childhood);
    FilterLengthIsCount(WorkAndPassions, Family);
    FilterLengthIsCount(WorkAndPassions, Pets);
    FilterLengthIsCount(WorkAndPassions, Work);
    FilterLengthIsCount(WorkAndPassions, Other);
  }

  lemma SensoryMemoriesCounts()
    ensures |FilterByCategory(SensoryMemories, Childhood)| == 3
    ensures |FilterByCategory(SensoryMemories, Family)| == 0
    ensures |FilterByCategory(SensoryMemories, Pets)| == 0
    ensures |FilterByCategory(SensoryMemories, Work)| == 0
    ensures |FilterByCategory(SensoryMemories, Other)| == 1
  {
    SensoryMemoriesCategories();
    FilterLengthIsCount(SensoryMemories, Childhood);
    FilterLengthIsCount(SensoryMemories, Family);
    FilterLengthIsCount(SensoryMemories, Pets);
    FilterLengthIsCount(SensoryMemories, Work);
    FilterLengthIsCount(SensoryMemories, Other);
  }

  lemma ConnectionCounts()
    ensures |FilterByCategory(Connection, Childhood)| == 0
    ensures |FilterByCategory(Connection, Family)| == 2
    ensures |FilterByCategory(Connection, Pets)| == 0
    ensures |FilterByCategory(Connection, Work)| == 0
    ensures |FilterByCategory(Connection, Other)| == 1
  {
    ConnectionCategories();
    FilterLengthIsCount(Connection, Childhood);
    FilterLengthIsCount(Connection, Family);
    FilterLengthIsCount(Connection, Pets);
    FilterLengthIsCount(Connection, Work);
    FilterLengthIsCount(Connection, Other);
  }

  lemma ChildhoodTotal()
    ensures |FilterByCategory(DeepQuestionsTable, Childhood)| == 8
  {
    ChildhoodAndOriginsCounts();
    FamilyAndLoveCounts();
    LifeWisdomCounts();
    WorkAndPassionsCounts();
    SensoryMemoriesCounts();
    ConnectionCounts();
    FilterSections(ChildhoodAndOrigins, FamilyAndLove, LifeWisdom, WorkAndPassions, SensoryMemories, Connection, Childhood);
  }

  lemma FamilyTotal()
    ensures |FilterByCategory(DeepQuestionsTable, Family)| == 9
  {
    ChildhoodAndOriginsCounts();
    FamilyAndLoveCounts();
    LifeWisdomCounts();
    WorkAndPassionsCounts();
    SensoryMemoriesCounts();
    ConnectionCounts();
    FilterSections(ChildhoodAndOrigins, FamilyAndLove, LifeWisdom, WorkAndPassions, SensoryMemories, Connection, Family);
  }

  lemma PetsTotal()
    ensures |FilterByCategory(DeepQuestionsTable, Pets)| == 0
  {
    ChildhoodAndOriginsCounts();
    FamilyAndLoveCounts();
    LifeWisdomCounts();
    WorkAndPassionsCounts();
    SensoryMemoriesCounts();
    ConnectionCounts();
    FilterSections(ChildhoodAndOrigins, FamilyAndLove, LifeWisdom, WorkAndPassions, SensoryMemories, Connection, Pets);
  }

  lemma WorkTotal()
    ensures |FilterByCategory(DeepQuestionsTable, Work)| == 2
  {
    ChildhoodAndOriginsCounts();
    FamilyAndLoveCounts();
    LifeWisdomCounts();
    WorkAndPassionsCounts();
    SensoryMemoriesCounts();
    ConnectionCounts();
    FilterSections(ChildhoodAndOrigins, FamilyAndLove, LifeWisdom, WorkAndPassions, SensoryMemories, Connection, Work);
  }

  lemma OtherTotal()
    ensures |FilterByCategory(DeepQuestionsTable, Other)| == 8
  {
    ChildhoodAndOriginsCounts();
    FamilyAndLoveCounts();
    LifeWisdomCounts();
    WorkAndPassionsCounts();
    SensoryMemoriesCounts();
    ConnectionCounts();
    FilterSections(ChildhoodAndOrigins, FamilyAndLove, LifeWisdom, WorkAndPassions, SensoryMemories, Connection, Other);
  }

  /** The catalogue holds 27 questions: 8 of childhood, 9 of family, none of pets, 2 of work and 8 other. */
  lemma QuestionCounts()
    ensures |DeepQuestionsTable| == 27
    ensures |GetQuestionsByCategory(Childhood)| == 8
    ensures |GetQuestionsByCategory(Family)| == 9
    ensures GetQuestionsByCategory(Pets) == []
    ensures |GetQuestionsByCategory(Work)| == 2
    ensures |GetQuestionsByCategory(Other)| == 8
  {
    ChildhoodTotal();
    FamilyTotal();
    PetsTotal();
    WorkTotal();
    OtherTotal();
  }

  /** `find` by id: the first entry with that id, or nothing when no entry has it. */
  function FindById(qs: seq<DeepQuestion>, id: int): (r: Option<DeepQuestion>)
    ensures r.Some? ==> exists i :: 0 <= i < |qs| && qs[i] == r.value && r.value.id == id
                                    && forall j :: 0 <= j < i ==> qs[j].id != id
    ensures r.None? ==> forall i :: 0 <= i < |qs| ==> qs[i].id != id
    decreases |qs|
  {
    if |qs| == 0 then None
    else if qs[0].id == id then Some(qs[0])
    else FindById(qs[1..], id)
  }

  /** `getQuestionById`; `None` stands for `null`. */
  function GetQuestionById(id: int): Option<DeepQuestion> {
    FindById(DeepQuestionsTable, id)
  }

  /** The entries of `qs` carry the ids `base`, `base + 1`, ... in order. */
  predicate NumberedFrom(qs: seq<DeepQuestion>, base: int) {
    forall i :: 0 <= i < |qs| ==> qs[i].id == base + i
  }

  lemma NumberedConcat(a: seq<DeepQuestion>, b: seq<DeepQuestion>, base: int)
    requires NumberedFrom(a, base) && NumberedFrom(b, base + |a|)
    ensures NumberedFrom(a + b, base)
  {
    forall i | 0 <= i < |a + b|
      ensures (a + b)[i].id == base + i
    {
      if i >= |a| {
        assert (a + b)[i] == b[i - |a|];
      }
    }
  }

  /** In a consecutively numbered sequence, `find` by id succeeds exactly in range, at offset `id - base`. */
  lemma {:induction false} FindNumbered(qs: seq<DeepQuestion>, base: int, id: int)
    requires NumberedFrom(qs, base)
    ensures FindById(qs, id).Some? <==> base <= id < base + |qs|
    ensures FindById(qs, id).Some? ==> FindById(qs, id).value == qs[id - base]
    decreases |qs|
  {
    if |qs| > 0 && qs[0].id != id {
      assert NumberedFrom(qs[1..], base + 1) by {
        forall i | 0 <= i < |qs[1..]|
          ensures qs[1..][i].id == base + 1 + i
        {
          assert qs[1..][i] == qs[i + 1];
        }
      }
      FindNumbered(qs[1..], base + 1, id);
    }
  }

  lemma ChildhoodAndOriginsNumbered()
    ensures NumberedFrom(ChildhoodAndOrigins, 1)
  {
  }

  lemma FamilyAndLoveNumbered()
    ensures NumberedFrom(FamilyAndLove, 7)
  {
  }

  lemma LifeWisdomNumbered()
    ensures NumberedFrom(LifeWisdom, 13)
  {
  }

  lemma WorkAndPassionsNumbered()
    ensures NumberedFrom(WorkAndPassions, 19)
  {
  }

  lemma SensoryMemoriesNumbered()
    ensures NumberedFrom(SensoryMemories, 21)
  {
  }

  lemma ConnectionNumbered()
    ensures NumberedFrom(Connection, 25)
  {
  }

  /** The catalogue is numbered 1..27 in order, so no two entries share an id. */
  lemma TableNumbered()
    ensures NumberedFrom(DeepQuestionsTable, 1)
    ensures forall i, j :: 0 <= i < j < |DeepQuestionsTable| ==> DeepQuestionsTable[i].id != DeepQuestionsTable[j].id
  {
    ChildhoodAndOriginsNumbered();
    FamilyAndLoveNumbered();
    LifeWisdomNumbered();
    WorkAndPassionsNumbered();
    SensoryMemoriesNumbered();
    ConnectionNumbered();
    NumberedConcat(ChildhoodAndOrigins, FamilyAndLove, 1);
    NumberedConcat(ChildhoodAndOrigins + FamilyAndLove, LifeWisdom, 1);
    NumberedConcat(ChildhoodAndOrigins + FamilyAndLove + LifeWisdom, WorkAndPassions, 1);
    NumberedConcat(ChildhoodAndOrigins + FamilyAndLove + LifeWisdom + WorkAndPassions, SensoryMemories, 1);
    NumberedConcat(ChildhoodAndOrigins + FamilyAndLove + LifeWisdom + WorkAndPassions + SensoryMemories, Connection, 1);
  }

  /** `getQuestionById(n)` is non-null exactly for 1 <= n <= 27, and then it is the n-th entry, whose id is `n`. */
  lemma GetQuestionByIdRange(n: int)
    ensures GetQuestionById(n).Some? <==> 1 <= n <= 27
    ensures GetQuestionById(n).Some? ==> GetQuestionById(n).value == DeepQuestionsTable[n - 1]
                                         && GetQuestionById(n).value.id == n
  {
    TableNumbered();
    FindNumbered(DeepQuestionsTable, 1, n);
  }
}
