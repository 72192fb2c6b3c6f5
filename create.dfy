/** The record `POST /blogs` builds from the request body. */
module Create {
  import opened BlogModel

  /** The body fields the route reads, each absent or present. */
  datatype CreateRequest = CreateRequest(
    id: Option<string>,
    title: Option<string>,
    blog: Option<Body>,
    thumbnail: Option<string>,
    category: Option<string>,
    tags: Option<seq<string>>,
    authorName: Option<string>)

  /** The five fields that must be truthy. */
  predicate HasRequired(req: CreateRequest) {
    && TruthyText(req.id)
    && TruthyText(req.title)
    && req.blog.Some?
    && TruthyText(req.category)
    && TruthyText(req.authorName)
  }

  /** The new document, or None when a required field is missing (the route
      then answers 400). `now` stands for `new Date()`. */
  function NewBlog(req: CreateRequest, now: int): (r: Option<Doc>)
    ensures r.Some? <==> HasRequired(req)
    ensures r.Some? ==> Complete(r.value) && r.value.reactCount == 0 && r.value.createdAt == now
    ensures r.Some? ==>
              && req.id == Some(r.value.id)
              && req.title == Some(r.value.title)
              && req.blog == Some(r.value.blog)
              && req.category == Some(r.value.category)
              && req.authorName == Some(r.value.authorName)
    ensures r.Some? && req.thumbnail.None? ==> r.value.thumbnail == ""
    ensures r.Some? && req.thumbnail.Some? ==> r.value.thumbnail == req.thumbnail.value
    ensures r.Some? && req.tags.None? ==> r.value.tags == []
    ensures r.Some? && req.tags.Some? ==> r.value.tags == req.tags.value
  {
    if !TruthyText(req.id) || !TruthyText(req.title) || req.blog.None?
       || !TruthyText(req.category) || !TruthyText(req.authorName) then
      None
    else
      Some(Doc(
        id := req.id.value,
        title := req.title.value,
        blog := req.blog.value,
        thumbnail := if TruthyText(req.thumbnail) then req.thumbnail.value else "",
        category := req.category.value,
        tags := if req.tags.Some? then req.tags.value else [],
        authorName := req.authorName.value,
        createdAt := now,
        reactCount := 0))
  }
}
