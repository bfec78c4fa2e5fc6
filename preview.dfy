/**
 * The preview renderer: projects the scalar form fields and the live blocks
 * of the four kinds into one document, escaping and trimming every value
 * but the picture's source and omitting empty optional parts. The page template is a fixed run of
 * ten places, each filled or left empty; the document is the run of filled
 * places. Markup and indentation are not kept.
 */
module Preview {
  import opened Wrappers
  import opened Text
  import opened Escape
  import opened Registry
  import opened Sections

  /** The scalar inputs of the form and the picture's source; `None` is an input the page lacks. */
  datatype FormState = FormState(
    forenames: Option<string>, middleName: Option<string>, surname: Option<string>,
    dob: Option<string>, phone: Option<string>, email: Option<string>, address: Option<string>,
    summary: Option<string>, skills: Option<string>, hobbies: Option<string>,
    imgSrc: Option<string>)

  datatype Icon = Calendar | Pin | Telephone | Envelope

  datatype ContactLine = ContactLine(icon: Icon, text: string)

  datatype Fragment =
    | Picture(src: string)
    | NameLine(text: string)
    | ContactInfo(lines: seq<ContactLine>)
    | SummaryBlock(text: string)
    | SkillsBlock(items: seq<string>)
    | HobbiesBlock(items: seq<string>)
    | LanguagesBlock(languages: seq<Card>)
    | ExperienceSection(cards: seq<Card>)  // "Work Experience"; a placeholder line when there is no card
    | EducationSection(cards: seq<Card>)   // "Higher Education"; a placeholder line when there is no card
    | ReferencesSection(cards: seq<Card>)  // "References"

  /** A scalar field as the preview shows it: trimmed, then escaped. */
  function Scalar(v: Option<string>): string
  {
    EscapeHtml(TrimValue(v))
  }

  /** The form field behind each contact icon. */
  function ContactField(form: FormState, icon: Icon): Option<string>
  {
    match icon
    case Calendar => form.dob
    case Pin => form.address
    case Telephone => form.phone
    case Envelope => form.email
  }

  /** Where each icon's line sits in the contact block. */
  function IconRank(icon: Icon): nat
  {
    match icon
    case Calendar => 0
    case Pin => 1
    case Telephone => 2
    case Envelope => 3
  }

  /** The line of one icon, present only when its shown text is non-empty. */
  function ContactSlot(icon: Icon, text: string): Option<ContactLine>
  {
    if text != [] then Some(ContactLine(icon, text)) else None
  }

  /** The contact block over the text each icon would show, in the order date of birth, address, phone, email. */
  function ContactBlock(shown: Icon -> string): seq<ContactLine>
  {
    Present([ContactSlot(Calendar, shown(Calendar)), ContactSlot(Pin, shown(Pin)),
             ContactSlot(Telephone, shown(Telephone)), ContactSlot(Envelope, shown(Envelope))])
  }

  /** What each contact icon's field shows: trimmed, then escaped. */
  function ContactText(form: FormState): Icon -> string
  {
    icon => Scalar(ContactField(form, icon))
  }

  /** The contact lines of a form, each only when its field shows as non-empty. */
  function ContactLines(form: FormState): seq<ContactLine>
  {
    ContactBlock(ContactText(form))
  }

  /**
   * The contact block lists its lines in the fixed icon order; every line
   * carries its own icon's text, and every icon with non-empty text has its
   * line.
   */
  lemma ContactBlockShape(shown: Icon -> string)
    ensures var lines := ContactBlock(shown);
      && (forall a, b :: 0 <= a < b < |lines| ==> IconRank(lines[a].icon) < IconRank(lines[b].icon))
      && (forall i :: 0 <= i < |lines| ==> lines[i].text == shown(lines[i].icon) != [])
      && (forall icon :: shown(icon) != [] ==> exists i :: 0 <= i < |lines| && lines[i].icon == icon)
  {
    var slots := [ContactSlot(Calendar, shown(Calendar)), ContactSlot(Pin, shown(Pin)),
                  ContactSlot(Telephone, shown(Telephone)), ContactSlot(Envelope, shown(Envelope))];
    var rank := (l: ContactLine) => IconRank(l.icon);
    PresentOrdered(slots, rank);
    PresentAtRank(slots, rank);
    PresentHasSlots(slots);
    var lines := Present(slots);
    forall icon | shown(icon) != [] ensures exists i :: 0 <= i < |lines| && lines[i].icon == icon {
      var l := slots[IconRank(icon)].value;
      assert l in lines;
    }
  }

  /** Where each fragment sits in the page template. */
  function Rank(f: Fragment): nat
  {
    match f
    case Picture(_) => 0
    case NameLine(_) => 1
    case ContactInfo(_) => 2
    case SummaryBlock(_) => 3
    case SkillsBlock(_) => 4
    case HobbiesBlock(_) => 5
    case LanguagesBlock(_) => 6
    case ExperienceSection(_) => 7
    case EducationSection(_) => 8
    case ReferencesSection(_) => 9
  }

  /** The scalar parts of the page as the preview shows them. */
  datatype Shown = Shown(src: string, name: string, contact: seq<ContactLine>, summary: string,
                         skills: seq<string>, hobbies: seq<string>)

  /** The scalar parts of a form: the raw picture source, then trimmed and escaped values and the parsed lists. */
  function ShownOf(form: FormState): Shown
  {
    Shown(form.imgSrc.GetOr(""),
          Scalar(form.forenames) + " " + Scalar(form.middleName) + " " + Scalar(form.surname),
          ContactLines(form),
          Scalar(form.summary),
          ParseList(Scalar(form.skills)),
          ParseList(Scalar(form.hobbies)))
  }

  /**
   * The ten places of the page template over the shown scalar parts and
   * already built card lists; the languages and references parts are `None`
   * when their container holds no block at all.
   */
  function Slots(s: Shown, languages: Option<seq<Card>>, experience: seq<Card>, education: seq<Card>,
                 references: Option<seq<Card>>): seq<Option<Fragment>>
  {
    [ if s.src != [] then Some(Picture(s.src)) else None,
      Some(NameLine(s.name)),
      Some(ContactInfo(s.contact)),
      if s.summary != [] then Some(SummaryBlock(s.summary)) else None,
      if s.skills != [] then Some(SkillsBlock(s.skills)) else None,
      if s.hobbies != [] then Some(HobbiesBlock(s.hobbies)) else None,
      if languages.Some? then Some(LanguagesBlock(languages.value)) else None,
      Some(ExperienceSection(experience)),
      Some(EducationSection(education)),
      if references.Some? then Some(ReferencesSection(references.value)) else None ]
  }

  /** The page: its filled places, in template order. */
  function Layout(s: Shown, languages: Option<seq<Card>>, experience: seq<Card>, education: seq<Card>,
                  references: Option<seq<Card>>): seq<Fragment>
  {
    Present(Slots(s, languages, experience, education, references))
  }

  /** The cards of a container, or `None` when it holds no block at all. */
  function Listed(k: Kind, bs: seq<Block>): Option<seq<Card>>
  {
    if bs != [] then Some(Cards(k, bs)) else None
  }

  /** The preview document for a form and the live blocks of the four kinds. */
  function Render(form: FormState, exp: seq<Block>, edu: seq<Block>, refs: seq<Block>, langs: seq<Block>): seq<Fragment>
  {
    Layout(ShownOf(form), Listed(Language, langs), Cards(Experience, exp), Cards(Education, edu), Listed(Reference, refs))
  }

  /** Each filled place of the template holds a fragment of its own rank. */
  lemma SlotsRanked(s: Shown, languages: Option<seq<Card>>, experience: seq<Card>, education: seq<Card>,
                    references: Option<seq<Card>>)
    ensures var slots := Slots(s, languages, experience, education, references);
      forall j :: 0 <= j < |slots| && slots[j].Some? ==> Rank(slots[j].value) == j
  {
  }

  /**
   * The page's places are filled in template order, each at most once, and
   * every fragment of the page is exactly what its place holds.
   */
  lemma LayoutShape(s: Shown, languages: Option<seq<Card>>, experience: seq<Card>, education: seq<Card>,
                    references: Option<seq<Card>>)
    ensures var slots, doc := Slots(s, languages, experience, education, references), Layout(s, languages, experience, education, references);
      && (forall a, b :: 0 <= a < b < |doc| ==> Rank(doc[a]) < Rank(doc[b]))
      && (forall i :: 0 <= i < |doc| ==> Rank(doc[i]) < |slots| && slots[Rank(doc[i])] == Some(doc[i]))
      && (forall j :: 0 <= j < |slots| && slots[j].Some? ==> slots[j].value in doc)
  {
    var slots := Slots(s, languages, experience, education, references);
    SlotsRanked(s, languages, experience, education, references);
    PresentOrdered(slots, Rank);
    PresentAtRank(slots, Rank);
    PresentHasSlots(slots);
  }

  /** The document shows a fragment of rank r. */
  predicate Shows(doc: seq<Fragment>, r: nat)
  {
    exists i :: 0 <= i < |doc| && Rank(doc[i]) == r
  }

  /** A place of the template shows in the page exactly when it is filled. */
  lemma LayoutShows(s: Shown, languages: Option<seq<Card>>, experience: seq<Card>, education: seq<Card>,
                    references: Option<seq<Card>>, r: nat)
    requires r < 10
    ensures Shows(Layout(s, languages, experience, education, references), r)
        <==> Slots(s, languages, experience, education, references)[r].Some?
  {
    var slots, doc := Slots(s, languages, experience, education, references), Layout(s, languages, experience, education, references);
    LayoutShape(s, languages, experience, education, references);
    SlotsRanked(s, languages, experience, education, references);
    if slots[r].Some? {
      var i :| 0 <= i < |doc| && doc[i] == slots[r].value;
      assert Rank(doc[i]) == r;
    } else {
      forall i | 0 <= i < |doc| ensures Rank(doc[i]) != r {
        assert slots[Rank(doc[i])] == Some(doc[i]);
      }
    }
  }

  /** The preview shows the picture exactly when it has a source, and passes that source on unchanged. */
  lemma RenderPicture(form: FormState, exp: seq<Block>, edu: seq<Block>, refs: seq<Block>, langs: seq<Block>)
    ensures var doc := Render(form, exp, edu, refs, langs);
      && (Shows(doc, 0) <==> form.imgSrc.GetOr("") != [])
      && (forall i :: 0 <= i < |doc| && doc[i].Picture? ==> doc[i].src == form.imgSrc.GetOr(""))
  {
    var s, languages, references := ShownOf(form), Listed(Language, langs), Listed(Reference, refs);
    var experience, education := Cards(Experience, exp), Cards(Education, edu);
    LayoutShows(s, languages, experience, education, references, 0);
    LayoutShape(s, languages, experience, education, references);
  }

  /**
   * The name line and the contact block are always on the page, and so are
   * the two section headings, each holding exactly the cards it was given.
   */
  lemma LayoutFixedParts(s: Shown, languages: Option<seq<Card>>, experience: seq<Card>, education: seq<Card>,
                         references: Option<seq<Card>>)
    ensures var doc := Layout(s, languages, experience, education, references);
      && NameLine(s.name) in doc
      && ContactInfo(s.contact) in doc
      && (forall cards :: ExperienceSection(cards) in doc <==> cards == experience)
      && (forall cards :: EducationSection(cards) in doc <==> cards == education)
  {
    var slots, doc := Slots(s, languages, experience, education, references), Layout(s, languages, experience, education, references);
    LayoutShape(s, languages, experience, education, references);
    assert slots[1].Some? && slots[2].Some? && slots[7].Some? && slots[8].Some?;
    forall cards | ExperienceSection(cards) in doc ensures cards == experience {
      var i :| 0 <= i < |doc| && doc[i] == ExperienceSection(cards);
      assert slots[Rank(doc[i])] == Some(doc[i]);
    }
    forall cards | EducationSection(cards) in doc ensures cards == education {
      var i :| 0 <= i < |doc| && doc[i] == EducationSection(cards);
      assert slots[Rank(doc[i])] == Some(doc[i]);
    }
  }

  /**
   * The name line and the contact block are always there, and the two
   * section headings always show, each with the cards of its own kind.
   */
  lemma RenderFixedParts(form: FormState, exp: seq<Block>, edu: seq<Block>, refs: seq<Block>, langs: seq<Block>)
    ensures var doc := Render(form, exp, edu, refs, langs);
      && ContactInfo(ContactLines(form)) in doc
      && (forall cards :: ExperienceSection(cards) in doc <==> cards == Cards(Experience, exp))
      && (forall cards :: EducationSection(cards) in doc <==> cards == Cards(Education, edu))
      && Shows(doc, 1)
  {
    var s, languages, references := ShownOf(form), Listed(Language, langs), Listed(Reference, refs);
    var experience, education := Cards(Experience, exp), Cards(Education, edu);
    LayoutFixedParts(s, languages, experience, education, references);
    LayoutShows(s, languages, experience, education, references, 1);
  }

  /** The profile shows exactly when the trimmed summary is non-empty. */
  lemma RenderSummary(form: FormState, exp: seq<Block>, edu: seq<Block>, refs: seq<Block>, langs: seq<Block>)
    ensures Shows(Render(form, exp, edu, refs, langs), 3) <==> TrimValue(form.summary) != []
  {
    var s, languages, references := ShownOf(form), Listed(Language, langs), Listed(Reference, refs);
    var experience, education := Cards(Experience, exp), Cards(Education, edu);
    LayoutShows(s, languages, experience, education, references, 3);
    EscapeHtmlEmpty(TrimValue(form.summary));
  }

  /** The skills and hobbies blocks show exactly when their lists have an item. */
  lemma RenderLists(form: FormState, exp: seq<Block>, edu: seq<Block>, refs: seq<Block>, langs: seq<Block>)
    ensures var doc := Render(form, exp, edu, refs, langs);
      && (Shows(doc, 4) <==> ParseList(Scalar(form.skills)) != [])
      && (Shows(doc, 5) <==> ParseList(Scalar(form.hobbies)) != [])
  {
    var s, languages, references := ShownOf(form), Listed(Language, langs), Listed(Reference, refs);
    var experience, education := Cards(Experience, exp), Cards(Education, edu);
    LayoutShows(s, languages, experience, education, references, 4);
    LayoutShows(s, languages, experience, education, references, 5);
  }

  /**
   * The Languages wrapper and the References heading show exactly when
   * their container holds a block, whether or not any block yields a card.
   */
  lemma RenderOptionalSections(form: FormState, exp: seq<Block>, edu: seq<Block>, refs: seq<Block>, langs: seq<Block>)
    ensures var doc := Render(form, exp, edu, refs, langs);
      && (Shows(doc, 6) <==> langs != [])
      && (Shows(doc, 9) <==> refs != [])
  {
    var s, languages, references := ShownOf(form), Listed(Language, langs), Listed(Reference, refs);
    var experience, education := Cards(Experience, exp), Cards(Education, edu);
    LayoutShows(s, languages, experience, education, references, 6);
    LayoutShows(s, languages, experience, education, references, 9);
  }

  /** Fragments appear in template order. */
  lemma RenderOrdered(form: FormState, exp: seq<Block>, edu: seq<Block>, refs: seq<Block>, langs: seq<Block>)
    ensures var doc := Render(form, exp, edu, refs, langs);
      forall a, b :: 0 <= a < b < |doc| ==> Rank(doc[a]) < Rank(doc[b])
  {
    var s, languages, references := ShownOf(form), Listed(Language, langs), Listed(Reference, refs);
    var experience, education := Cards(Experience, exp), Cards(Education, edu);
    LayoutShape(s, languages, experience, education, references);
  }

  /**
   * With well-formed experience blocks, the "No work experience added."
   * placeholder shows exactly when no block sits at the position equal to
   * its number with a significant field.
   */
  lemma RenderExperiencePlaceholder(form: FormState, exp: seq<Block>, edu: seq<Block>, refs: seq<Block>, langs: seq<Block>)
    requires forall j :: 0 <= j < |exp| ==> WellFormed(Experience, exp[j])
    ensures ExperienceSection([]) in Render(form, exp, edu, refs, langs)
        <==> forall j :: 0 <= j < |exp| ==> !(exp[j].id == j + 1 && Significant(Experience, exp[j]))
  {
    RenderFixedParts(form, exp, edu, refs, langs);
    CardsNonEmpty(Experience, exp);
  }

  /**
   * With well-formed education blocks, the "No higher education added."
   * placeholder shows exactly when no block sits at the position equal to
   * its number with a significant field.
   */
  lemma RenderEducationPlaceholder(form: FormState, exp: seq<Block>, edu: seq<Block>, refs: seq<Block>, langs: seq<Block>)
    requires forall j :: 0 <= j < |edu| ==> WellFormed(Education, edu[j])
    ensures EducationSection([]) in Render(form, exp, edu, refs, langs)
        <==> forall j :: 0 <= j < |edu| ==> !(edu[j].id == j + 1 && Significant(Education, edu[j]))
  {
    RenderFixedParts(form, exp, edu, refs, langs);
    CardsNonEmpty(Education, edu);
  }

  /**
   * A reference block whose card is hidden still brings the References
   * heading: with blocks but no card, the section shows empty.
   */
  lemma RenderReferencesWithoutCards(form: FormState, exp: seq<Block>, edu: seq<Block>, refs: seq<Block>, langs: seq<Block>)
    requires refs != [] && forall j :: 0 <= j < |refs| ==> WellFormed(Reference, refs[j])
    requires forall j :: 0 <= j < |refs| ==> !(refs[j].id == j + 1 && Significant(Reference, refs[j]))
    ensures ReferencesSection([]) in Render(form, exp, edu, refs, langs)
  {
    var s, languages, references := ShownOf(form), Listed(Language, langs), Listed(Reference, refs);
    var experience, education := Cards(Experience, exp), Cards(Education, edu);
    CardsNonEmpty(Reference, refs);
    LayoutShape(s, languages, experience, education, references);
    assert Slots(s, languages, experience, education, references)[9] == Some(ReferencesSection([]));
  }

  /** A fragment holds no markup-significant character; the picture's source is the one part left unescaped. */
  predicate FragmentSafe(f: Fragment)
  {
    match f
    case Picture(_) => true
    case NameLine(text) => Safe(text)
    case ContactInfo(lines) => forall i :: 0 <= i < |lines| ==> Safe(lines[i].text)
    case SummaryBlock(text) => Safe(text)
    case SkillsBlock(items) => forall i :: 0 <= i < |items| ==> Safe(items[i])
    case HobbiesBlock(items) => forall i :: 0 <= i < |items| ==> Safe(items[i])
    case LanguagesBlock(cards) => forall i :: 0 <= i < |cards| ==> CardSafe(cards[i])
    case ExperienceSection(cards) => forall i :: 0 <= i < |cards| ==> CardSafe(cards[i])
    case EducationSection(cards) => forall i :: 0 <= i < |cards| ==> CardSafe(cards[i])
    case ReferencesSection(cards) => forall i :: 0 <= i < |cards| ==> CardSafe(cards[i])
  }

  /** Every item of a list parsed from a shown value is safe. */
  lemma ListSafe(v: Option<string>)
    ensures forall i :: 0 <= i < |ParseList(Scalar(v))| ==> Safe(ParseList(Scalar(v))[i])
  {
    EscapeHtmlSafe(TrimValue(v));
    ParseListChars(Scalar(v));
  }

  /** The name line is safe. */
  lemma NameLineSafe(form: FormState)
    ensures Safe(Scalar(form.forenames) + " " + Scalar(form.middleName) + " " + Scalar(form.surname))
  {
    EscapeHtmlSafe(TrimValue(form.forenames));
    EscapeHtmlSafe(TrimValue(form.middleName));
    EscapeHtmlSafe(TrimValue(form.surname));
    SafeAppend(Scalar(form.forenames), " ");
    SafeAppend(Scalar(form.forenames) + " ", Scalar(form.middleName));
    SafeAppend(Scalar(form.forenames) + " " + Scalar(form.middleName), " ");
    SafeAppend(Scalar(form.forenames) + " " + Scalar(form.middleName) + " ", Scalar(form.surname));
  }

  /** Every contact line is safe. */
  lemma ContactLinesSafe(form: FormState)
    ensures forall i :: 0 <= i < |ContactLines(form)| ==> Safe(ContactLines(form)[i].text)
  {
    ContactBlockShape(ContactText(form));
    forall icon: Icon ensures Safe(ContactText(form)(icon)) {
      EscapeHtmlSafe(TrimValue(ContactField(form, icon)));
    }
  }

  /** Every shown scalar part except the picture's source is free of markup-significant characters. */
  predicate ShownSafe(s: Shown)
  {
    && Safe(s.name)
    && (forall i :: 0 <= i < |s.contact| ==> Safe(s.contact[i].text))
    && Safe(s.summary)
    && (forall i :: 0 <= i < |s.skills| ==> Safe(s.skills[i]))
    && (forall i :: 0 <= i < |s.hobbies| ==> Safe(s.hobbies[i]))
  }

  /** The scalar parts of any form are shown safely. */
  lemma ShownOfSafe(form: FormState)
    ensures ShownSafe(ShownOf(form))
  {
    NameLineSafe(form);
    ContactLinesSafe(form);
    EscapeHtmlSafe(TrimValue(form.summary));
    ListSafe(form.skills);
    ListSafe(form.hobbies);
  }

  /** Over safe scalar parts and safe cards, every place of the template holds a safe fragment. */
  lemma SlotsSafe(s: Shown, languages: Option<seq<Card>>, experience: seq<Card>, education: seq<Card>,
                  references: Option<seq<Card>>)
    requires ShownSafe(s)
    requires languages.Some? ==> forall c :: c in languages.value ==> CardSafe(c)
    requires references.Some? ==> forall c :: c in references.value ==> CardSafe(c)
    requires forall c :: c in experience ==> CardSafe(c)
    requires forall c :: c in education ==> CardSafe(c)
    ensures var slots := Slots(s, languages, experience, education, references);
      forall j :: 0 <= j < |slots| && slots[j].Some? ==> FragmentSafe(slots[j].value)
  {
  }

  /** Everything the preview shows, except the picture's source, is free of markup-significant characters. */
  lemma RenderSafe(form: FormState, exp: seq<Block>, edu: seq<Block>, refs: seq<Block>, langs: seq<Block>)
    ensures var doc := Render(form, exp, edu, refs, langs);
      forall i :: 0 <= i < |doc| ==> FragmentSafe(doc[i])
  {
    var s, languages, references := ShownOf(form), Listed(Language, langs), Listed(Reference, refs);
    var experience, education := Cards(Experience, exp), Cards(Education, edu);
    CardsSafe(Language, langs);
    CardsSafe(Reference, refs);
    CardsSafe(Experience, exp);
    CardsSafe(Education, edu);
    ShownOfSafe(form);
    SlotsSafe(s, languages, experience, education, references);
    LayoutShape(s, languages, experience, education, references);
  }

  /** The forEach of one kind: read each block at index + 1 and append its card when the gate passes. */
  method RenderCards(k: Kind, blocks: seq<Block>) returns (cards: seq<Card>)
    ensures cards == Cards(k, blocks)
  {
    cards := [];
    var i := 0;
    while i < |blocks|
      invariant 0 <= i <= |blocks|
      invariant cards == Cards(k, blocks[..i])
    {
      var card := CardOf(k, blocks[i], i + 1);
      CardsStep(k, blocks, i);
      OptListAppend(cards, card);
      if card.Some? {
        cards := cards + [card.value];
      }
      i := i + 1;
    }
    assert blocks[..i] == blocks;
  }

  /** Builds the preview from the current form and registry; it changes nothing. */
  method BuildPreviewHtml(form: FormState, reg: SectionRegistry) returns (doc: seq<Fragment>)
    ensures doc == Render(form, reg.experience, reg.education, reg.references, reg.languages)
  {
    var expCards := RenderCards(Experience, reg.experience);
    var eduCards := RenderCards(Education, reg.education);
    var references: Option<seq<Card>> := None;
    if reg.references != [] {
      var refCards := RenderCards(Reference, reg.references);
      references := Some(refCards);
    }
    var languages: Option<seq<Card>> := None;
    if reg.languages != [] {
      var items := RenderCards(Language, reg.languages);
      languages := Some(items);
    }
    doc := Layout(ShownOf(form), languages, expCards, eduCards, references);
  }
}
