/** The frequently-asked-questions page (`app/faq/page.tsx`): a keyword
    classifier sorts the questions into five categories shown in a fixed
    order, each question gets an icon from a second, case-sensitive keyword
    chain, and an accordion keeps at most one answer open. */
module Faq {
  import opened Seqs
  import opened Strings

  datatype Question = Question(question: string, answer: string)

  /** The five categories, in the order the page lists them. */
  datatype Category = Reservations | HotelServices | Facilities | SpecialPolicies | General

  const AllCategories: seq<Category> := [Reservations, HotelServices, Facilities, SpecialPolicies, General]

  /** The label the page shows for a category. */
  function Title(c: Category): (t: string)
    ensures t != []
  {
    match c
    case Reservations => "Reservas y Políticas"
    case HotelServices => "Servicios del Hotel"
    case Facilities => "Instalaciones"
    case SpecialPolicies => "Políticas Especiales"
    case General => "General"
  }

  /** Distinct categories have distinct labels, so comparing labels, as the
      page does, is comparing categories. */
  lemma TitleInjective(a: Category, b: Category)
    requires Title(a) == Title(b)
    ensures a == b
  {
  }

  // ---------------------------------------------------------------------
  // getQuestionCategory

  /** `text.includes(w)` for some keyword `w`. */
  predicate MentionsAny(text: string, words: seq<string>)
  {
    exists w | w in words :: Contains(text, w)
  }

  const ReservationWords: seq<string> := ["check-in", "check-out", "cancelar", "pago", "horarios"]
  const ServiceWords: seq<string> := ["desayuno", "spa", "transporte", "aeropuerto"]
  const FacilityWords: seq<string> := ["estacionamiento", "wifi", "fumadores", "habitaciones"]
  const PolicyWords: seq<string> := ["mascotas", "datos", "sostenibilidad"]

  /** The category of the first keyword list, in the order reservations,
      services, facilities, special policies, that the lower-cased question
      mentions; `General` when it mentions none. */
  function CategoryOf(question: string): (c: Category)
    ensures var q := Lower(question);
            && (c == Reservations <==> MentionsAny(q, ReservationWords))
            && (c == HotelServices <==> !MentionsAny(q, ReservationWords) && MentionsAny(q, ServiceWords))
            && (c == Facilities <==> !MentionsAny(q, ReservationWords) && !MentionsAny(q, ServiceWords) &&
                                     MentionsAny(q, FacilityWords))
            && (c == SpecialPolicies <==> !MentionsAny(q, ReservationWords) && !MentionsAny(q, ServiceWords) &&
                                          !MentionsAny(q, FacilityWords) && MentionsAny(q, PolicyWords))
            && (c == General <==> !MentionsAny(q, ReservationWords) && !MentionsAny(q, ServiceWords) &&
                                  !MentionsAny(q, FacilityWords) && !MentionsAny(q, PolicyWords))
  {
    var q := Lower(question);
    if MentionsAny(q, ReservationWords) then Reservations
    else if MentionsAny(q, ServiceWords) then HotelServices
    else if MentionsAny(q, FacilityWords) then Facilities
    else if MentionsAny(q, PolicyWords) then SpecialPolicies
    else General
  }

  /** The classifier ignores case: a question and its lower-cased form fall
      in the same category. */
  lemma CategoryIgnoresCase(question: string)
    ensures CategoryOf(Lower(question)) == CategoryOf(question)
  {
    LowerIdempotent(question);
  }

  /** A reservation keyword wins over every later list: a question about
      paying for the spa is a reservation question. */
  lemma ReservationsFirst(question: string)
    requires Contains(Lower(question), "pago")
    ensures CategoryOf(question) == Reservations
  {
    assert "pago" in ReservationWords;
  }

  // ---------------------------------------------------------------------
  // faqCategories and categoriesWithQuestions

  /** One card of the page: a category and its questions. */
  datatype FaqCategory = FaqCategory(category: Category, questions: seq<Question>)

  /** `questions.filter(qa => getQuestionCategory(qa.question) === title)`. */
  function Bucket(qs: seq<Question>, c: Category): (r: seq<Question>)
    ensures forall q :: q in r <==> q in qs && CategoryOf(q.question) == c
    ensures SubseqOf(r, qs)
  {
    Filter(qs, (q: Question) => CategoryOf(q.question) == c)
  }

  /** `faqCategories`: the five cards in order; without data (`faqData`
      still null) every card is empty. */
  function FaqCategories(data: Option<seq<Question>>): (r: seq<FaqCategory>)
    ensures |r| == 5
    ensures forall i :: 0 <= i < 5 ==> r[i].category == AllCategories[i]
    ensures data.None? ==> forall i :: 0 <= i < 5 ==> r[i].questions == []
    ensures data.Some? ==> forall i :: 0 <= i < 5 ==> r[i].questions == Bucket(data.value, AllCategories[i])
  {
    var qs := if data.Some? then data.value else [];
    seq(5, i requires 0 <= i < 5 => FaqCategory(AllCategories[i], Bucket(qs, AllCategories[i])))
  }

  /** How often a question occurs in a bucket: as often as in the list if it
      has that category, never otherwise. */
  lemma BucketCount(qs: seq<Question>, c: Category, q: Question)
    ensures multiset(Bucket(qs, c))[q] == if CategoryOf(q.question) == c then multiset(qs)[q] else 0
  {
    FilterCount(qs, (x: Question) => CategoryOf(x.question) == c, q);
  }

  /** The five buckets split the questions: counting repeats, together they
      hold the questions exactly. */
  lemma BucketsPartition(qs: seq<Question>)
    ensures multiset(qs) == multiset(Bucket(qs, Reservations)) + multiset(Bucket(qs, HotelServices)) +
                            multiset(Bucket(qs, Facilities)) + multiset(Bucket(qs, SpecialPolicies)) +
                            multiset(Bucket(qs, General))
  {
    forall q
      ensures multiset(qs)[q] == multiset(Bucket(qs, Reservations))[q] + multiset(Bucket(qs, HotelServices))[q] +
                                 multiset(Bucket(qs, Facilities))[q] + multiset(Bucket(qs, SpecialPolicies))[q] +
                                 multiset(Bucket(qs, General))[q]
    {
      BucketCount(qs, Reservations, q);
      BucketCount(qs, HotelServices, q);
      BucketCount(qs, Facilities, q);
      BucketCount(qs, SpecialPolicies, q);
      BucketCount(qs, General, q);
    }
  }

  /** Each question of the page sits in the card of its category and in no
      other. */
  lemma CardOfQuestion(qs: seq<Question>, q: Question, i: nat)
    requires q in qs && i < 5
    ensures q in FaqCategories(Some(qs))[i].questions <==> i == IndexOf(CategoryOf(q.question))
  {
  }

  /** The position of a category in the page's order. */
  function IndexOf(c: Category): (i: nat)
    ensures i < 5 && AllCategories[i] == c
  {
    match c
    case Reservations => 0
    case HotelServices => 1
    case Facilities => 2
    case SpecialPolicies => 3
    case General => 4
  }

  /** The number of questions held by a list of cards. */
  function QuestionCount(cards: seq<FaqCategory>): nat
  {
    if cards == [] then 0 else |cards[0].questions| + QuestionCount(cards[1..])
  }

  /** `categoriesWithQuestions`: the cards with at least one question, in
      the page's order. */
  function CategoriesWithQuestions(cards: seq<FaqCategory>): (r: seq<FaqCategory>)
    ensures forall c :: c in r <==> c in cards && |c.questions| > 0
    ensures SubseqOf(r, cards)
    ensures QuestionCount(r) == QuestionCount(cards)
  {
    if cards == [] then []
    else if |cards[0].questions| > 0 then [cards[0]] + CategoriesWithQuestions(cards[1..])
    else CategoriesWithQuestions(cards[1..])
  }

  /** `totalQuestions` is what the cards hold together, shown or not. */
  lemma TotalQuestions(qs: seq<Question>)
    ensures QuestionCount(FaqCategories(Some(qs))) == |qs|
    ensures QuestionCount(CategoriesWithQuestions(FaqCategories(Some(qs)))) == |qs|
  {
    var cards := FaqCategories(Some(qs));
    BucketsPartition(qs);
    assert |multiset(qs)| == |qs|;
    QuestionCountFive(cards);
  }

  lemma QuestionCountFive(cards: seq<FaqCategory>)
    requires |cards| == 5
    ensures QuestionCount(cards) == |cards[0].questions| + |cards[1].questions| + |cards[2].questions| +
                                    |cards[3].questions| + |cards[4].questions|
  {
    assert QuestionCount(cards[4..]) == |cards[4].questions| by { assert cards[4..][1..] == []; }
    assert QuestionCount(cards[3..]) == |cards[3].questions| + QuestionCount(cards[4..]) by { assert cards[3..][1..] == cards[4..]; }
    assert QuestionCount(cards[2..]) == |cards[2].questions| + QuestionCount(cards[3..]) by { assert cards[2..][1..] == cards[3..]; }
    assert QuestionCount(cards[1..]) == |cards[1].questions| + QuestionCount(cards[2..]) by { assert cards[1..][1..] == cards[2..]; }
  }

  // ---------------------------------------------------------------------
  // getQuestionIcon

  datatype QuestionIcon = Clock | Utensils | Car | Wifi | Shield | Heart | Plane | CloseIcon | Leaf | CreditCard | Database | HelpCircle

  /** The keywords of each icon, as the chain tests them. */
  function IconWords(icon: QuestionIcon): seq<string>
  {
    match icon
    case Clock => ["check-in", "horarios"]
    case Utensils => ["desayuno"]
    case Car => ["estacionamiento"]
    case Wifi => ["WiFi"]
    case Shield => ["mascotas", "fumadores"]
    case Heart => ["spa"]
    case Plane => ["aeropuerto"]
    case CloseIcon => ["cancelar"]
    case Leaf => ["sostenibilidad"]
    case CreditCard => ["pago"]
    case Database => ["datos"]
    case HelpCircle => []
  }

  /** The position of an icon's test in the chain; the help icon is the
      fallback at the end. */
  function Rank(icon: QuestionIcon): nat
  {
    match icon
    case Clock => 0
    case Utensils => 1
    case Car => 2
    case Wifi => 3
    case Shield => 4
    case Heart => 5
    case Plane => 6
    case CloseIcon => 7
    case Leaf => 8
    case CreditCard => 9
    case Database => 10
    case HelpCircle => 11
  }

  /** `getQuestionIcon`: tests the question as written, without lowering
      it. The icon returned has a keyword in the question, and no icon
      tested before it has one; the help icon means that no icon has. */
  function IconOf(question: string): (r: QuestionIcon)
    ensures r != HelpCircle ==> MentionsAny(question, IconWords(r))
    ensures forall e: QuestionIcon :: Rank(e) < Rank(r) ==> !MentionsAny(question, IconWords(e))
  {
    if MentionsAny(question, IconWords(Clock)) then Clock
    else if MentionsAny(question, IconWords(Utensils)) then Utensils
    else if MentionsAny(question, IconWords(Car)) then Car
    else if MentionsAny(question, IconWords(Wifi)) then Wifi
    else if MentionsAny(question, IconWords(Shield)) then Shield
    else if MentionsAny(question, IconWords(Heart)) then Heart
    else if MentionsAny(question, IconWords(Plane)) then Plane
    else if MentionsAny(question, IconWords(CloseIcon)) then CloseIcon
    else if MentionsAny(question, IconWords(Leaf)) then Leaf
    else if MentionsAny(question, IconWords(CreditCard)) then CreditCard
    else if MentionsAny(question, IconWords(Database)) then Database
    else HelpCircle
  }

  /** An icon whose keyword occurs is tested no later than the one shown. */
  lemma IconFirstMatch(question: string, e: QuestionIcon)
    requires MentionsAny(question, IconWords(e))
    ensures Rank(IconOf(question)) <= Rank(e)
    ensures IconOf(question) != HelpCircle
  {
  }

  /** Unlike the category, the icon is case-sensitive: "WiFi" gets the wifi
      icon and "wifi" gets none, while both are facilities questions. */
  lemma IconIsCaseSensitive()
    ensures IconOf("WiFi") == Wifi
    ensures IconOf("wifi") == HelpCircle
    ensures CategoryOf("WiFi") == CategoryOf("wifi") == Facilities
  {
    CapitalWifiIcon();
    LowerWifiIcon();
    WifiCategory();
  }

  lemma CapitalWifiIcon()
    ensures IconOf("WiFi") == Wifi
  {
    assert ContainsAt("WiFi", "WiFi", 0);
    assert Contains("WiFi", "WiFi");
    assert "WiFi" in IconWords(Wifi);
    forall e: QuestionIcon | Rank(e) < 3 ensures !MentionsAny("WiFi", IconWords(e)) {
      TooLong("WiFi", IconWords(e));
    }
  }

  lemma LowerWifiIcon()
    ensures IconOf("wifi") == HelpCircle
  {
    NoSpa();
    NoPago();
    forall e: QuestionIcon ensures !MentionsAny("wifi", IconWords(e)) {
      if e == Wifi {
        assert !ContainsAt("wifi", "WiFi", 0) by { assert "wifi"[0..4][2] != "WiFi"[2]; }
      } else if e != Heart && e != CreditCard {
        TooLong("wifi", IconWords(e));
      }
    }
  }

  lemma WifiCategory()
    ensures CategoryOf("WiFi") == CategoryOf("wifi") == Facilities
  {
    LowerWiFi();
    CategoryIgnoresCase("WiFi");
    WifiFacility();
  }

  lemma LowerWiFi()
    ensures Lower("WiFi") == "wifi"
  {
  }

  lemma WifiFacility()
    ensures CategoryOf("wifi") == Facilities
  {
    var q := Lower("wifi");
    assert q == "wifi";
    assert !MentionsAny(q, ReservationWords) by {
      NoPago();
      TooLong("wifi", ["check-in", "check-out", "cancelar", "horarios"]);
    }
    assert !MentionsAny(q, ServiceWords) by {
      NoSpa();
      TooLong("wifi", ["desayuno", "transporte", "aeropuerto"]);
    }
    assert MentionsAny(q, FacilityWords) by {
      assert ContainsAt("wifi", "wifi", 0);
      assert "wifi" in FacilityWords;
    }
  }

  lemma NoSpa()
    ensures !Contains("wifi", "spa")
  {
    assert !ContainsAt("wifi", "spa", 0) by { assert "wifi"[0..3][0] != 's'; }
    assert !ContainsAt("wifi", "spa", 1) by { assert "wifi"[1..4][0] != 's'; }
  }

  lemma NoPago()
    ensures !Contains("wifi", "pago")
  {
    assert !ContainsAt("wifi", "pago", 0) by { assert "wifi"[0..4][0] != 'p'; }
  }

  /** Keywords longer than the text cannot occur in it. */
  lemma TooLong(text: string, words: seq<string>)
    requires forall w | w in words :: |w| > |text|
    ensures forall w | w in words :: !Contains(text, w)
  {
  }

  // ---------------------------------------------------------------------
  // toggleQuestion

  /** A question's key: the index of its card among the cards shown and its
      index within the card (`${categoryIndex}-${questionIndex}`). */
  datatype QuestionId = QuestionId(card: nat, question: nat)

  /** `openQuestion === id ? null : id`. */
  function Toggled(open: Option<QuestionId>, id: QuestionId): (r: Option<QuestionId>)
    ensures r == Some(id) <==> open != Some(id)
    ensures r.Some? ==> r == Some(id)
  {
    if open == Some(id) then None else Some(id)
  }

  /** Toggling shows `id` exactly when it was hidden, and hides every other
      question; toggling the same question twice restores a hidden one. */
  lemma ToggleEffect(open: Option<QuestionId>, id: QuestionId, other: QuestionId)
    ensures Toggled(open, id) == Some(other) <==> other == id && open != Some(id)
    ensures open != Some(id) ==> Toggled(Toggled(open, id), id) == None
    ensures open == Some(id) ==> Toggled(Toggled(open, id), id) == open
  {
  }

  /** The page's accordion state. */
  class FaqPage {
    var openQuestion: Option<QuestionId>

    constructor ()
      ensures openQuestion == None
    {
      openQuestion := None;
    }

    predicate IsOpen(card: nat, question: nat)
      reads this
    {
      openQuestion == Some(QuestionId(card, question))
    }

    /** `toggleQuestion` and the button's click handler. */
    method ToggleQuestion(card: nat, question: nat)
      modifies this
      ensures openQuestion == Toggled(old(openQuestion), QuestionId(card, question))
      ensures IsOpen(card, question) <==> !old(IsOpen(card, question))
      ensures forall c: nat, q: nat :: (c, q) != (card, question) ==> !IsOpen(c, q)
    {
      var id := QuestionId(card, question);
      openQuestion := if openQuestion == Some(id) then None else Some(id);
    }
  }
}
