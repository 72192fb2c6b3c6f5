/** `PUT /blogs/:id`: the update set holds the truthy fields of the body, and
    `$set` writes exactly those fields into the matched document. */
module Update {
  import opened BlogModel

  /** The six fields a body may change. */
  datatype Field = Title | BlogBody | Thumbnail | Category | Tags | AuthorName

  datatype Value = TextValue(s: string) | BodyValue(b: Body) | TagsValue(t: seq<string>)

  /** A partial assignment of the six fields: the request body as destructured,
      or the update set built from it. */
  datatype Fields = Fields(
    title: Option<string>,
    blog: Option<Body>,
    thumbnail: Option<string>,
    category: Option<string>,
    tags: Option<seq<string>>,
    authorName: Option<string>)

  const NoFields := Fields(None, None, None, None, None, None)

  function Get(p: Fields, f: Field): Option<Value> {
    match f
    case Title => if p.title.Some? then Some(TextValue(p.title.value)) else None
    case BlogBody => if p.blog.Some? then Some(BodyValue(p.blog.value)) else None
    case Thumbnail => if p.thumbnail.Some? then Some(TextValue(p.thumbnail.value)) else None
    case Category => if p.category.Some? then Some(TextValue(p.category.value)) else None
    case Tags => if p.tags.Some? then Some(TagsValue(p.tags.value)) else None
    case AuthorName => if p.authorName.Some? then Some(TextValue(p.authorName.value)) else None
  }

  /** JavaScript truthiness of a body field: present, and not "" when a string
      (an object or an array is always truthy). */
  predicate IsTruthy(v: Option<Value>) {
    v.Some? && (v.value.TextValue? ==> TruthyText(Some(v.value.s)))
  }

  /** The update set for `body`: exactly its truthy fields, with their values. */
  predicate IsUpdateSetFor(u: Fields, body: Fields) {
    forall f :: Get(u, f) == if IsTruthy(Get(body, f)) then Get(body, f) else None
  }

  /** Every field an update set holds is truthy. */
  predicate OnlyTruthy(u: Fields) {
    forall f :: Get(u, f).Some? ==> IsTruthy(Get(u, f))
  }

  /** Two update sets for the same body are equal: the set is determined by the body. */
  lemma UpdateSetIsUnique(u1: Fields, u2: Fields, body: Fields)
    requires IsUpdateSetFor(u1, body) && IsUpdateSetFor(u2, body)
    ensures u1 == u2
  {
    assert Get(u1, Title) == Get(u2, Title);
    assert Get(u1, BlogBody) == Get(u2, BlogBody);
    assert Get(u1, Thumbnail) == Get(u2, Thumbnail);
    assert Get(u1, Category) == Get(u2, Category);
    assert Get(u1, Tags) == Get(u2, Tags);
    assert Get(u1, AuthorName) == Get(u2, AuthorName);
  }

  /** The update set for `body`, stated one field at a time. */
  lemma UpdateSetByField(u: Fields, body: Fields)
    requires u.title == if TruthyText(body.title) then body.title else None
    requires u.blog == body.blog
    requires u.thumbnail == if TruthyText(body.thumbnail) then body.thumbnail else None
    requires u.category == if TruthyText(body.category) then body.category else None
    requires u.tags == body.tags
    requires u.authorName == if TruthyText(body.authorName) then body.authorName else None
    ensures IsUpdateSetFor(u, body) && OnlyTruthy(u)
  {
    forall f ensures Get(u, f) == if IsTruthy(Get(body, f)) then Get(body, f) else None {
      match f
      case Title =>
      case BlogBody =>
      case Thumbnail =>
      case Category =>
      case Tags =>
      case AuthorName =>
    }
  }

  /** `updateFields`, filled one field at a time from the truthy body fields. */
  method BuildUpdateSet(body: Fields) returns (u: Fields)
    ensures IsUpdateSetFor(u, body)
    ensures OnlyTruthy(u)
  {
    u := NoFields;
    if TruthyText(body.title) { u := u.(title := body.title); }
    if body.blog.Some? { u := u.(blog := body.blog); }
    if TruthyText(body.thumbnail) { u := u.(thumbnail := body.thumbnail); }
    if TruthyText(body.category) { u := u.(category := body.category); }
    if body.tags.Some? { u := u.(tags := body.tags); }
    if TruthyText(body.authorName) { u := u.(authorName := body.authorName); }
    UpdateSetByField(u, body);
  }

  /** The value a document holds in one of the six fields. */
  function FieldOf(d: Doc, f: Field): Value {
    match f
    case Title => TextValue(d.title)
    case BlogBody => BodyValue(d.blog)
    case Thumbnail => TextValue(d.thumbnail)
    case Category => TextValue(d.category)
    case Tags => TagsValue(d.tags)
    case AuthorName => TextValue(d.authorName)
  }

  /** `$set: u` on one document: each field of the set takes the set's value,
      every other field, `id`, `createdAt` and `reactCount` included, is kept. */
  function Apply(d: Doc, u: Fields): (r: Doc)
    ensures forall f :: FieldOf(r, f) == if Get(u, f).Some? then Get(u, f).value else FieldOf(d, f)
    ensures r.id == d.id && r.createdAt == d.createdAt && r.reactCount == d.reactCount
  {
    d.(title := if u.title.Some? then u.title.value else d.title,
       blog := if u.blog.Some? then u.blog.value else d.blog,
       thumbnail := if u.thumbnail.Some? then u.thumbnail.value else d.thumbnail,
       category := if u.category.Some? then u.category.value else d.category,
       tags := if u.tags.Some? then u.tags.value else d.tags,
       authorName := if u.authorName.Some? then u.authorName.value else d.authorName)
  }

  /** A document is determined by its six fields and the three `$set` never touches. */
  lemma SameFieldsSameDoc(d1: Doc, d2: Doc)
    requires forall f :: FieldOf(d1, f) == FieldOf(d2, f)
    requires d1.id == d2.id && d1.createdAt == d2.createdAt && d1.reactCount == d2.reactCount
    ensures d1 == d2
  {
    assert FieldOf(d1, Title) == FieldOf(d2, Title);
    assert FieldOf(d1, BlogBody) == FieldOf(d2, BlogBody);
    assert FieldOf(d1, Thumbnail) == FieldOf(d2, Thumbnail);
    assert FieldOf(d1, Category) == FieldOf(d2, Category);
    assert FieldOf(d1, Tags) == FieldOf(d2, Tags);
    assert FieldOf(d1, AuthorName) == FieldOf(d2, AuthorName);
  }

  /** Only fields the body supplies truthily can change. */
  lemma ChangesOnlySuppliedFields(d: Doc, u: Fields, body: Fields, f: Field)
    requires IsUpdateSetFor(u, body)
    requires !IsTruthy(Get(body, f))
    ensures FieldOf(Apply(d, u), f) == FieldOf(d, f)
  {
  }

  /** An update set of truthy values keeps the required fields non-empty. */
  lemma ApplyKeepsComplete(d: Doc, u: Fields)
    requires Complete(d) && OnlyTruthy(u)
    ensures Complete(Apply(d, u))
  {
    assert Get(u, Title).Some? ==> IsTruthy(Get(u, Title));
    assert Get(u, Category).Some? ==> IsTruthy(Get(u, Category));
    assert Get(u, AuthorName).Some? ==> IsTruthy(Get(u, AuthorName));
  }

  /** Applying the same set twice changes nothing the second time, so a
      repeated `PUT` finds no modification. */
  lemma ApplyIsIdempotent(d: Doc, u: Fields)
    ensures Apply(Apply(d, u), u) == Apply(d, u)
  {
    var once := Apply(d, u);
    SameFieldsSameDoc(Apply(once, u), once);
  }

  /** A body without a truthy field gives an empty set, which changes nothing. */
  lemma NothingSuppliedChangesNothing(d: Doc, u: Fields, body: Fields)
    requires IsUpdateSetFor(u, body)
    requires forall f :: !IsTruthy(Get(body, f))
    ensures Apply(d, u) == d
  {
    SameFieldsSameDoc(Apply(d, u), d);
  }
}
