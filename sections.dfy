/**
 * The cards of the preview. Each block of a section is read at its 1-based
 * DISPLAY POSITION, its fields trimmed and escaped, and a card (a list item,
 * for a language) is emitted only when the kind's significance gate passes.
 * Cards hold the escaped values; `CardLines` lays them out with the fixed
 * text of the templates.
 */
module Sections {
  import opened Wrappers
  import opened Escape
  import opened Digits
  import opened Registry
  import opened FieldReader
  import opened Listing

  datatype Card =
    | ExpCard(title: string, company: string, location: string, start: string, end: string, resp: string)
    | EduCard(title: string, institution: string, field: string, yearStart: string, yearEnd: string)
    | RefCard(name: string, refPosition: string, company: string, phone: string, email: string)
    | LangItem(name: string, level: string)

  /** `a || b` on strings. */
  function Or(a: string, b: string): string
  {
    if a != [] then a else b
  }

  /** `tag + s` when `s` is non-empty, else nothing. */
  function Prefixed(tag: string, s: string): string
  {
    if s != [] then tag + s else ""
  }

  /** `(s)` when `s` is non-empty, else nothing. */
  function Parenthesized(s: string): string
  {
    if s != [] then "(" + s + ")" else ""
  }

  /** A start and an end, joined by " - " only when both are present. */
  function Span(start: string, end: string): string
  {
    start + (if start != [] && end != [] then " - " else "") + end
  }

  /** ` (start - end)` when either year is present, else nothing. */
  function Years(yearStart: string, yearEnd: string): string
  {
    if yearStart != [] || yearEnd != [] then " (" + yearStart + " - " + yearEnd + ")" else ""
  }

  /** The text lines of a card, as its template lays them out (markup left out). */
  function CardLines(c: Card): seq<string>
  {
    match c
    case ExpCard(title, company, location, start, end, resp) =>
      [title, Prefixed(" at ", company) + " " + Parenthesized(location), Span(start, end), resp]
    case EduCard(title, institution, field, yearStart, yearEnd) =>
      [title, " " + Prefixed("in ", field), institution + Years(yearStart, yearEnd)]
    case RefCard(name, refPosition, company, phone, email) =>
      [name, " " + Parenthesized(refPosition), company, Prefixed("Phone: ", phone) + " " + Prefixed("Email: ", email)]
    case LangItem(name, level) =>
      [name + " (" + level + ")"]
  }

  /** The experience card over already read values: none unless title, company or responsibilities is non-empty. */
  function ExperienceTemplate(jobTitle: string, company: string, location: string, start: string, end: string, resp: string): Option<Card>
  {
    if jobTitle != [] || company != [] || resp != [] then
      Some(ExpCard(Or(jobTitle, "Job Title"), company, location, start, end, resp))
    else None
  }

  /** The education card over already read values: none unless institution or degree is non-empty. */
  function EducationTemplate(institution: string, degree: string, field: string, yearStart: string, yearEnd: string): Option<Card>
  {
    if institution != [] || degree != [] then
      Some(EduCard(Or(degree, "Qualification"), institution, field, yearStart, yearEnd))
    else None
  }

  /** The reference card over already read values: none unless the name is non-empty. */
  function ReferenceTemplate(name: string, company: string, refPosition: string, phone: string, email: string): Option<Card>
  {
    if name != [] then Some(RefCard(name, refPosition, company, phone, email)) else None
  }

  /** The language item over already read values: none unless the name is non-empty. */
  function LanguageTemplate(name: string, level: string): Option<Card>
  {
    if name != [] then Some(LangItem(name, level)) else None
  }

  /** The card the preview emits for block `b` enumerated at `position`, every field looked up by `position`. */
  function CardOf(k: Kind, b: Block, position: nat): Option<Card>
  {
    match k
    case Experience =>
      ExperienceTemplate(
        ReadField(b, "jobTitle", position), ReadField(b, "company", position), ReadField(b, "location", position),
        ReadField(b, "expStart", position), ReadField(b, "expEnd", position), ReadField(b, "responsibilities", position))
    case Education =>
      EducationTemplate(
        ReadField(b, "institution", position), ReadField(b, "degree", position), ReadField(b, "field", position),
        ReadField(b, "yearStart", position), ReadField(b, "yearEnd", position))
    case Reference =>
      ReferenceTemplate(
        ReadField(b, "refName", position), ReadField(b, "refCompany", position), ReadField(b, "refPosition", position),
        ReadField(b, "refPhone", position), ReadField(b, "refEmail", position))
    case Language =>
      LanguageTemplate(ReadField(b, "langName", position), ReadField(b, "langLevel", position))
  }

  /** The preview's reader for kind `k`: the block it enumerates at `position` yields `CardOf(k, b, position)`. */
  function Reader(k: Kind): (Block, nat) -> Option<Card>
  {
    (b: Block, position: nat) => CardOf(k, b, position)
  }

  /** The cards of a container, in container order, every block read at its position. */
  function Cards(k: Kind, bs: seq<Block>): seq<Card>
  {
    Present(Readings(Reader(k), bs))
  }

  /** The cards the numbering of the form suggests: every block read by its own number. */
  function CardsByIdentity(k: Kind, bs: seq<Block>): seq<Card>
  {
    Present(NumberedReadings(Reader(k), bs))
  }

  /** The first i + 1 blocks yield the cards of the first i, then at most the card of block i. */
  lemma CardsStep(k: Kind, bs: seq<Block>, i: nat)
    requires i < |bs|
    ensures Cards(k, bs[..i + 1]) == Cards(k, bs[..i]) + OptList(CardOf(k, bs[i], i + 1))
  {
    EntriesStep(Reader(k), bs, i);
  }

  /** The significance gate of a kind, stated on the block's own stored values. */
  predicate Significant(k: Kind, b: Block)
  {
    match k
    case Experience => Stored(b, "jobTitle") != [] || Stored(b, "company") != [] || Stored(b, "responsibilities") != []
    case Education => Stored(b, "institution") != [] || Stored(b, "degree") != []
    case Reference => Stored(b, "refName") != []
    case Language => Stored(b, "langName") != []
  }

  lemma ExperienceGate(b: Block, position: nat)
    requires WellFormed(Experience, b)
    ensures CardOf(Experience, b, position).Some? <==> position == b.id && Significant(Experience, b)
  {
    ReadFieldNonEmpty(Experience, b, "jobTitle", position);
    ReadFieldNonEmpty(Experience, b, "company", position);
    ReadFieldNonEmpty(Experience, b, "responsibilities", position);
  }

  lemma EducationGate(b: Block, position: nat)
    requires WellFormed(Education, b)
    ensures CardOf(Education, b, position).Some? <==> position == b.id && Significant(Education, b)
  {
    ReadFieldNonEmpty(Education, b, "institution", position);
    ReadFieldNonEmpty(Education, b, "degree", position);
  }

  /**
   * A block yields a card (a list item, for a language) exactly when it is
   * read at the position equal to its creation number and its kind's
   * significant fields are not all blank.
   */
  lemma CardGate(k: Kind, b: Block, position: nat)
    requires WellFormed(k, b)
    ensures CardOf(k, b, position).Some? <==> position == b.id && Significant(k, b)
  {
    match k
    case Experience => ExperienceGate(b, position);
    case Education => EducationGate(b, position);
    case Reference => ReadFieldNonEmpty(k, b, "refName", position);
    case Language => ReadFieldNonEmpty(k, b, "langName", position);
  }

  /**
   * A block just added has every input at its initial value, so it passes no
   * gate: it yields no card at any position until something is typed into it.
   */
  lemma {:induction false} NewBlockSilent(k: Kind, n: nat)
    ensures !Significant(k, NewBlock(k, n))
    ensures forall position: nat :: CardOf(k, NewBlock(k, n), position).None?
  {
    var b := NewBlock(k, n);
    match k {
      case Experience =>
        StoredInitial(k, n, "jobTitle");
        StoredInitial(k, n, "company");
        StoredInitial(k, n, "responsibilities");
      case Education =>
        StoredInitial(k, n, "institution");
        StoredInitial(k, n, "degree");
      case Reference => StoredInitial(k, n, "refName");
      case Language => StoredInitial(k, n, "langName");
    }
    assert !Significant(k, b);
    forall position: nat ensures CardOf(k, b, position).None? {
      CardGate(k, b, position);
    }
  }

  /** An input of a new block other than the fluency select reads back empty. */
  lemma StoredInitial(k: Kind, n: nat, name: string)
    requires name in FieldNames(k) && name != "langLevel"
    ensures Stored(NewBlock(k, n), name) == []
  {
    var b := NewBlock(k, n);
    NewBlockValues(k, n);
    assert b.inputs[ElementId(name, n)] == "";
    assert Query(b, ElementId(name, b.id)) == Some("");
  }

  /** An emitted experience card falls back to "Job Title", an education card to "Qualification". */
  lemma CardDefaults(k: Kind, b: Block)
    requires WellFormed(k, b) && (k == Experience || k == Education)
    requires CardOf(k, b, b.id).Some?
    ensures k == Experience ==> CardOf(k, b, b.id).value.title == Or(EscapeHtml(Stored(b, "jobTitle")), "Job Title")
    ensures k == Education ==> CardOf(k, b, b.id).value.title == Or(EscapeHtml(Stored(b, "degree")), "Qualification")
  {
    if k == Experience {
      ReadFieldByPosition(k, b, "jobTitle", b.id);
    } else {
      ReadFieldByPosition(k, b, "degree", b.id);
    }
  }

  /** A container never has more cards than blocks. */
  lemma CardsLength(k: Kind, bs: seq<Block>)
    ensures |Cards(k, bs)| <= |bs|
  {
    PresentLength(Readings(Reader(k), bs));
  }

  /**
   * A container of well-formed blocks shows some card exactly when some
   * block sits at the position equal to its number and passes the gate.
   */
  lemma CardsNonEmpty(k: Kind, bs: seq<Block>)
    requires forall j :: 0 <= j < |bs| ==> WellFormed(k, bs[j])
    ensures Cards(k, bs) != [] <==> exists j :: 0 <= j < |bs| && bs[j].id == j + 1 && Significant(k, bs[j])
  {
    EntriesNonEmpty(Reader(k), bs);
    forall j | 0 <= j < |bs| ensures Reader(k)(bs[j], j + 1).Some? <==> bs[j].id == j + 1 && Significant(k, bs[j]) {
      CardGate(k, bs[j], j + 1);
    }
  }

  /** With increasing numbers from 1, a block's number is never below its position. */
  lemma {:induction false} NumberAtLeastPosition(count: nat, k: Kind, bs: seq<Block>, j: nat)
    requires KindValid(k, count, bs) && j < |bs|
    ensures bs[j].id >= j + 1
  {
    if j > 0 {
      NumberAtLeastPosition(count, k, bs, j - 1);
    }
  }

  /** Once a block's number runs ahead of its position, so do the numbers of all later blocks. */
  lemma {:induction false} DriftPersists(count: nat, k: Kind, bs: seq<Block>, j: nat, m: nat)
    requires KindValid(k, count, bs) && j <= m < |bs| && bs[j].id != j + 1
    ensures bs[m].id > m + 1
  {
    if m == j {
      NumberAtLeastPosition(count, k, bs, j);
    } else {
      DriftPersists(count, k, bs, j, m - 1);
    }
  }

  /** A block after a drifted one is never read as a card at its position. */
  lemma DriftSilences(k: Kind, count: nat, bs: seq<Block>, j: nat, m: nat)
    requires KindValid(k, count, bs) && j <= m < |bs| && bs[j].id != j + 1
    ensures CardOf(k, bs[m], m + 1).None?
  {
    DriftPersists(count, k, bs, j, m);
    CardGate(k, bs[m], m + 1);
  }

  /**
   * Once the block at position j + 1 carries another number (a block before
   * it was removed), neither it nor any later block of its kind shows in the
   * preview, whatever its fields hold.
   */
  lemma RemovalHidesLaterBlocks(k: Kind, count: nat, bs: seq<Block>, j: nat)
    requires KindValid(k, count, bs) && j < |bs| && bs[j].id != j + 1
    ensures Cards(k, bs) == Cards(k, bs[..j])
  {
    forall m | j <= m < |bs| ensures Reader(k)(bs[m], m + 1).None? {
      DriftSilences(k, count, bs, j, m);
    }
    SilentSuffix(Reader(k), bs, j);
  }

  /** While no block has been removed, numbers equal positions and every block is read by its own number. */
  lemma CardsWithoutRemoval(k: Kind, bs: seq<Block>)
    requires forall j :: 0 <= j < |bs| ==> bs[j].id == j + 1
    ensures Cards(k, bs) == CardsByIdentity(k, bs)
  {
    PositionsAreNumbers(Reader(k), bs);
  }

  /** Reading by number is blind to where a block sits: two runs read as each run. */
  lemma CardsByIdentityAppend(k: Kind, xs: seq<Block>, ys: seq<Block>)
    ensures CardsByIdentity(k, xs + ys) == CardsByIdentity(k, xs) + CardsByIdentity(k, ys)
  {
    NumberedAppend(Reader(k), xs, ys);
  }

  /**
   * Blocks numbered 1 to n, and block i + 1 (not the last) is removed: the
   * preview shows only the cards of the blocks before it.
   */
  lemma RemovalHidesFollowers(k: Kind, count: nat, bs: seq<Block>, i: nat)
    requires KindValid(k, count, bs) && (forall j :: 0 <= j < |bs| ==> bs[j].id == j + 1)
    requires i + 1 < |bs|
    ensures Cards(k, Detach(bs, i + 1)) == CardsByIdentity(k, bs[..i])
  {
    assert bs[i].id == i + 1;
    DetachSplice(bs, i);
    var front := bs[..i];
    var live := Detach(bs, i + 1);
    assert live == front + bs[i + 1..];
    DetachKeepsValid(k, count, bs, i + 1);
    assert live[i] == bs[i + 1];
    RemovalHidesLaterBlocks(k, count, live, i);
    assert live[..i] == front;
    CardsWithoutRemoval(k, front);
  }

  /**
   * Blocks numbered 1 to n, the last one removed and another one added: the
   * container is the first n - 1 blocks and the new one, which carries a
   * number above n at position n, so it never shows a card, whatever the
   * user types into it.
   */
  lemma {:induction false} RemoveLastThenAdd(k: Kind, bs: seq<Block>, b: Block)
    requires |bs| >= 1 && (forall j :: 0 <= j < |bs| ==> bs[j].id == j + 1)
    requires WellFormed(k, b) && b.id > |bs|
    ensures Detach(bs, |bs|) == bs[..|bs| - 1]
    ensures Cards(k, bs[..|bs| - 1] + [b]) == CardsByIdentity(k, bs[..|bs| - 1])
  {
    var n := |bs| - 1;
    assert IdsIncreasing(bs);
    DetachSplice(bs, n);
    var front := bs[..n];
    var live := front + [b];
    CardsStep(k, live, n);
    assert live[..n + 1] == live && live[..n] == front && live[n] == b;
    CardGate(k, b, n + 1);
    CardsWithoutRemoval(k, front);
  }

  /**
   * In the same situation, a significant last block has a card when read by
   * its own number but none in the preview.
   */
  lemma RemovalLosesCards(k: Kind, count: nat, bs: seq<Block>, i: nat)
    requires KindValid(k, count, bs) && (forall j :: 0 <= j < |bs| ==> bs[j].id == j + 1)
    requires i + 1 < |bs| && Significant(k, bs[|bs| - 1])
    ensures |Cards(k, Detach(bs, i + 1))| < |CardsByIdentity(k, Detach(bs, i + 1))|
  {
    RemovalHidesFollowers(k, count, bs, i);
    assert bs[i].id == i + 1;
    DetachSplice(bs, i);
    var front, rest := bs[..i], bs[i + 1..];
    CardsByIdentityAppend(k, front, rest);
    var last := |rest| - 1;
    assert rest[last] == bs[|bs| - 1];
    CardGate(k, rest[last], rest[last].id);
    NumberedNonEmpty(Reader(k), rest, last);
  }

  /** Every value a card holds is free of markup-significant characters. */
  predicate FieldsSafe(c: Card)
  {
    match c
    case ExpCard(title, company, location, start, end, resp) =>
      Safe(title) && Safe(company) && Safe(location) && Safe(start) && Safe(end) && Safe(resp)
    case EduCard(title, institution, field, yearStart, yearEnd) =>
      Safe(title) && Safe(institution) && Safe(field) && Safe(yearStart) && Safe(yearEnd)
    case RefCard(name, refPosition, company, phone, email) =>
      Safe(name) && Safe(refPosition) && Safe(company) && Safe(phone) && Safe(email)
    case LangItem(name, level) => Safe(name) && Safe(level)
  }

  /** Every line of a card is free of markup-significant characters. */
  predicate CardSafe(c: Card)
  {
    forall i :: 0 <= i < |CardLines(c)| ==> Safe(CardLines(c)[i])
  }

  lemma PrefixedSafe(tag: string, s: string)
    requires Safe(tag) && Safe(s)
    ensures Safe(Prefixed(tag, s))
  {
    if s != [] {
      SafeAppend(tag, s);
    }
  }

  lemma ParenthesizedSafe(s: string)
    requires Safe(s)
    ensures Safe(Parenthesized(s))
  {
    if s != [] {
      SafeAppend("(", s);
      SafeAppend("(" + s, ")");
    }
  }

  lemma SpanSafe(start: string, end: string)
    requires Safe(start) && Safe(end)
    ensures Safe(Span(start, end))
  {
    var sep := if start != [] && end != [] then " - " else "";
    SafeAppend(start, sep);
    SafeAppend(start + sep, end);
  }

  lemma YearsSafe(yearStart: string, yearEnd: string)
    requires Safe(yearStart) && Safe(yearEnd)
    ensures Safe(Years(yearStart, yearEnd))
  {
    SafeAppend(" (", yearStart);
    SafeAppend(" (" + yearStart, " - ");
    SafeAppend(" (" + yearStart + " - ", yearEnd);
    SafeAppend(" (" + yearStart + " - " + yearEnd, ")");
  }

  /** The fixed text of the experience template adds no markup. */
  lemma ExpLinesSafe(title: string, company: string, location: string, start: string, end: string, resp: string)
    requires Safe(title) && Safe(company) && Safe(location) && Safe(start) && Safe(end) && Safe(resp)
    ensures CardSafe(ExpCard(title, company, location, start, end, resp))
  {
    PrefixedSafe(" at ", company);
    ParenthesizedSafe(location);
    SafeAppend(Prefixed(" at ", company), " ");
    SafeAppend(Prefixed(" at ", company) + " ", Parenthesized(location));
    SpanSafe(start, end);
  }

  /** The fixed text of the education template adds no markup. */
  lemma EduLinesSafe(title: string, institution: string, field: string, yearStart: string, yearEnd: string)
    requires Safe(title) && Safe(institution) && Safe(field) && Safe(yearStart) && Safe(yearEnd)
    ensures CardSafe(EduCard(title, institution, field, yearStart, yearEnd))
  {
    PrefixedSafe("in ", field);
    SafeAppend(" ", Prefixed("in ", field));
    YearsSafe(yearStart, yearEnd);
    SafeAppend(institution, Years(yearStart, yearEnd));
  }

  /** The fixed text of the reference template adds no markup. */
  lemma RefLinesSafe(name: string, refPosition: string, company: string, phone: string, email: string)
    requires Safe(name) && Safe(refPosition) && Safe(company) && Safe(phone) && Safe(email)
    ensures CardSafe(RefCard(name, refPosition, company, phone, email))
  {
    ParenthesizedSafe(refPosition);
    SafeAppend(" ", Parenthesized(refPosition));
    PrefixedSafe("Phone: ", phone);
    PrefixedSafe("Email: ", email);
    SafeAppend(Prefixed("Phone: ", phone), " ");
    SafeAppend(Prefixed("Phone: ", phone) + " ", Prefixed("Email: ", email));
  }

  /** The fixed text of the language item adds no markup. */
  lemma LangLinesSafe(name: string, level: string)
    requires Safe(name) && Safe(level)
    ensures CardSafe(LangItem(name, level))
  {
    SafeAppend(name, " (");
    SafeAppend(name + " (", level);
    SafeAppend(name + " (" + level, ")");
  }

  /** A card of safe values has safe lines. */
  lemma CardLinesSafe(c: Card)
    requires FieldsSafe(c)
    ensures CardSafe(c)
  {
    match c
    case ExpCard(title, company, location, start, end, resp) => ExpLinesSafe(title, company, location, start, end, resp);
    case EduCard(title, institution, field, yearStart, yearEnd) => EduLinesSafe(title, institution, field, yearStart, yearEnd);
    case RefCard(name, refPosition, company, phone, email) => RefLinesSafe(name, refPosition, company, phone, email);
    case LangItem(name, level) => LangLinesSafe(name, level);
  }

  /** The default titles hold no markup. */
  lemma OrSafe(a: string, b: string)
    requires Safe(a) && Safe(b)
    ensures Safe(Or(a, b))
  {
  }

  /** Filled with safe values, the experience template holds only safe values. */
  lemma ExperienceTemplateSafe(jobTitle: string, company: string, location: string, start: string, end: string, resp: string)
    requires Safe(jobTitle) && Safe(company) && Safe(location) && Safe(start) && Safe(end) && Safe(resp)
    ensures ExperienceTemplate(jobTitle, company, location, start, end, resp).Some? ==>
      FieldsSafe(ExperienceTemplate(jobTitle, company, location, start, end, resp).value)
  {
    assert Safe("Job Title");
    OrSafe(jobTitle, "Job Title");
  }

  /** Filled with safe values, the education template holds only safe values. */
  lemma EducationTemplateSafe(institution: string, degree: string, field: string, yearStart: string, yearEnd: string)
    requires Safe(institution) && Safe(degree) && Safe(field) && Safe(yearStart) && Safe(yearEnd)
    ensures EducationTemplate(institution, degree, field, yearStart, yearEnd).Some? ==>
      FieldsSafe(EducationTemplate(institution, degree, field, yearStart, yearEnd).value)
  {
    assert Safe("Qualification");
    OrSafe(degree, "Qualification");
  }

  /** Filled with safe values, the reference template holds only safe values. */
  lemma ReferenceTemplateSafe(name: string, company: string, refPosition: string, phone: string, email: string)
    requires Safe(name) && Safe(company) && Safe(refPosition) && Safe(phone) && Safe(email)
    ensures ReferenceTemplate(name, company, refPosition, phone, email).Some? ==>
      FieldsSafe(ReferenceTemplate(name, company, refPosition, phone, email).value)
  {
  }

  /** Filled with safe values, the language template holds only safe values. */
  lemma LanguageTemplateSafe(name: string, level: string)
    requires Safe(name) && Safe(level)
    ensures LanguageTemplate(name, level).Some? ==> FieldsSafe(LanguageTemplate(name, level).value)
  {
  }

  /** An experience card holds escaped field values or the default title. */
  lemma ExperienceFieldsSafe(b: Block, position: nat)
    requires CardOf(Experience, b, position).Some?
    ensures FieldsSafe(CardOf(Experience, b, position).value)
  {
    ReadFieldSafe(b, "jobTitle", position);
    ReadFieldSafe(b, "company", position);
    ReadFieldSafe(b, "location", position);
    ReadFieldSafe(b, "expStart", position);
    ReadFieldSafe(b, "expEnd", position);
    ReadFieldSafe(b, "responsibilities", position);
    ExperienceTemplateSafe(
      ReadField(b, "jobTitle", position), ReadField(b, "company", position), ReadField(b, "location", position),
      ReadField(b, "expStart", position), ReadField(b, "expEnd", position), ReadField(b, "responsibilities", position));
  }

  /** An education card holds escaped field values or the default title. */
  lemma EducationFieldsSafe(b: Block, position: nat)
    requires CardOf(Education, b, position).Some?
    ensures FieldsSafe(CardOf(Education, b, position).value)
  {
    ReadFieldSafe(b, "institution", position);
    ReadFieldSafe(b, "degree", position);
    ReadFieldSafe(b, "field", position);
    ReadFieldSafe(b, "yearStart", position);
    ReadFieldSafe(b, "yearEnd", position);
    EducationTemplateSafe(
      ReadField(b, "institution", position), ReadField(b, "degree", position), ReadField(b, "field", position),
      ReadField(b, "yearStart", position), ReadField(b, "yearEnd", position));
  }

  /** A reference card holds escaped field values only. */
  lemma ReferenceFieldsSafe(b: Block, position: nat)
    requires CardOf(Reference, b, position).Some?
    ensures FieldsSafe(CardOf(Reference, b, position).value)
  {
    ReadFieldSafe(b, "refName", position);
    ReadFieldSafe(b, "refCompany", position);
    ReadFieldSafe(b, "refPosition", position);
    ReadFieldSafe(b, "refPhone", position);
    ReadFieldSafe(b, "refEmail", position);
    ReferenceTemplateSafe(
      ReadField(b, "refName", position), ReadField(b, "refCompany", position), ReadField(b, "refPosition", position),
      ReadField(b, "refPhone", position), ReadField(b, "refEmail", position));
  }

  /** A language item holds escaped field values only. */
  lemma LanguageFieldsSafe(b: Block, position: nat)
    requires CardOf(Language, b, position).Some?
    ensures FieldsSafe(CardOf(Language, b, position).value)
  {
    ReadFieldSafe(b, "langName", position);
    ReadFieldSafe(b, "langLevel", position);
    LanguageTemplateSafe(ReadField(b, "langName", position), ReadField(b, "langLevel", position));
  }

  /** Every line of an emitted card is safe. */
  lemma CardOfSafe(k: Kind, b: Block, position: nat)
    requires CardOf(k, b, position).Some?
    ensures CardSafe(CardOf(k, b, position).value)
  {
    match k {
      case Experience => ExperienceFieldsSafe(b, position);
      case Education => EducationFieldsSafe(b, position);
      case Reference => ReferenceFieldsSafe(b, position);
      case Language => LanguageFieldsSafe(b, position);
    }
    CardLinesSafe(CardOf(k, b, position).value);
  }

  /** Every card of a container is safe. */
  lemma CardsSafe(k: Kind, bs: seq<Block>)
    ensures forall c :: c in Cards(k, bs) ==> CardSafe(c)
  {
    forall j | 0 <= j < |bs| && Reader(k)(bs[j], j + 1).Some? ensures CardSafe(Reader(k)(bs[j], j + 1).value) {
      CardOfSafe(k, bs[j], j + 1);
    }
    EntriesSatisfy(Reader(k), bs, CardSafe);
  }
}
