/** A news item row (`news` table): the view counter and the content
    preview. */
module NewsModel {
  import opened Common
  import opened Text

  const GENERAL: string := "general"

  /** Characters kept by `get_preview` when no length is given. */
  const PREVIEW_CHARS: int := 150

  class News {
    /** Primary key, fixed once the row exists. */
    const id: nat
    var title: string
    var content: string
    var publishDate: nat
    var imageUrl: Option<string>
    /** Foreign key, fixed once the row exists. */
    const authorId: Option<int>
    var isFeatured: bool
    var isExclusive: bool
    var category: string
    var tags: Option<string>
    var viewsCount: int

    /** `News(...)`: published now unless a date is given, not featured,
        not exclusive, category general, and never viewed. */
    constructor (id: nat, title: string, content: string, now: nat,
                 publishDate: Option<nat> := None, imageUrl: Option<string> := None,
                 authorId: Option<int> := None, isFeatured: bool := false,
                 isExclusive: bool := false, category: string := GENERAL,
                 tags: Option<string> := None)
      ensures this.id == id && this.title == title && this.content == content
      ensures this.publishDate == (if publishDate.Some? then publishDate.value else now)
      ensures this.imageUrl == imageUrl && this.authorId == authorId
      ensures this.isFeatured == isFeatured && this.isExclusive == isExclusive
      ensures this.category == category && this.tags == tags
      ensures this.viewsCount == 0
    {
      this.id := id;
      this.title := title;
      this.content := content;
      this.publishDate := if publishDate.Some? then publishDate.value else now;
      this.imageUrl := imageUrl;
      this.authorId := authorId;
      this.isFeatured := isFeatured;
      this.isExclusive := isExclusive;
      this.category := category;
      this.tags := tags;
      this.viewsCount := 0;
    }

    /** `increment_views`: one more view, nothing else changes. */
    method IncrementViews()
      modifies this`viewsCount
      ensures viewsCount == old(viewsCount) + 1
    {
      viewsCount := viewsCount + 1;
    }

    /** `get_preview(chars)`: the content itself when it fits, otherwise its
        first `chars` characters followed by "...". */
    function GetPreview(chars: int := PREVIEW_CHARS): (r: string)
      reads this
      ensures |content| <= chars ==> r == content
      ensures |content| > chars >= 0 ==>
                |r| == chars + 3 && r[..chars] == content[..chars] && r[chars..] == "..."
      ensures |content| > chars ==> r == PyPrefix(content, chars) + "..."
    {
      Preview(content, chars)
    }
  }
}
