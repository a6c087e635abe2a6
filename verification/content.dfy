/**
 * The application's data model: the closed set of content types, a saved
 * content item, the type-to-label table and the seed store the app starts
 * with.
 */
module Content {
  import opened Wrappers

  /** The five kinds of saved content; the union is closed. */
  datatype ContentType = Tweet | Article | Video | Audio | Bookmark

  /** What the filter is set to: every item, or one content type. */
  datatype Selection = All | Only(kind: ContentType)

  /**
   * One saved item. The source's `type` field is called `kind` here, since
   * `type` is a Dafny keyword; `url` and `author` are optional.
   */
  datatype ContentItem = ContentItem(
    id: string,
    kind: ContentType,
    title: string,
    content: string,
    tags: seq<string>,
    dateAdded: string,
    url: Option<string>,
    author: Option<string>)

  /** The display label of each content type (a total table). */
  function Label(t: ContentType): (r: string)
    ensures |r| > 0 && 'A' <= r[0] <= 'Z'
  {
    match t
    case Tweet => "Tweet"
    case Article => "Article"
    case Video => "Video"
    case Audio => "Audio"
    case Bookmark => "Bookmark"
  }

  /** No two content types share a label, so a label names its type. */
  lemma LabelInjective(a: ContentType, b: ContentType)
    requires Label(a) == Label(b)
    ensures a == b
  {
  }

  /** The content types that occur in a store. */
  function Kinds(s: seq<ContentItem>): (r: set<ContentType>)
    ensures forall i :: 0 <= i < |s| ==> s[i].kind in r
    ensures forall t :: t in r ==> exists i :: 0 <= i < |s| && s[i].kind == t
  {
    set i | 0 <= i < |s| :: s[i].kind
  }

  /** The ids of a store, in store order. */
  function Ids(s: seq<ContentItem>): (r: seq<string>)
    ensures |r| == |s|
    ensures forall i :: 0 <= i < |s| ==> r[i] == s[i].id
  {
    if s == [] then [] else [s[0].id] + Ids(s[1..])
  }

  /** The store-wide invariant: ids are unique. */
  ghost predicate DistinctIds(s: seq<ContentItem>) {
    forall i, j :: 0 <= i < j < |s| ==> s[i].id != s[j].id
  }

  // The body texts of the seed items, kept as named constants so that
  // facts about the seed's ids and types do not unfold them.
  const Body1: string := "Artificial Intelligence is revolutionizing how we build web applications. From automated code generation to intelligent debugging, AI tools are becoming indispensable for modern developers..."
  const Body2: string := "🚀 React 19 is here! New features include: • Server Components • Concurrent Features • Automatic Batching • New Hooks The future of React looks amazing! #React19 #WebDev"
  const Body3: string := "Learn advanced TypeScript patterns that will make your code more type-safe and maintainable. This video covers conditional types, mapped types, and template literal types..."
  const Body4: string := "A deep dive into how users interact with digital interfaces and the psychological principles that drive good UX design. Topics include cognitive load, decision fatigue, and user motivation..."
  const Body5: string := "An interactive tool for generating CSS Grid layouts. Perfect for quickly prototyping grid-based designs with visual controls for gap, columns, rows, and alignment..."
  const Body6: string := "Best practices for structuring large React applications. Learn about component architecture, state management patterns, and performance optimization techniques..."

  /** The six items the store is seeded with when the app starts. */
  function MockContent(): seq<ContentItem> {
    [ ContentItem(
        "1", Article, "The Future of AI in Web Development",
        Body1,
        ["AI", "Web Development", "Technology", "Future"], "2024-01-15",
        Some("https://example.com/ai-web-dev"), Some("Tech Weekly")),
      ContentItem(
        "2", Tweet, "React 19 Features",
        Body2,
        ["React", "JavaScript", "Frontend"], "2024-01-14",
        None, Some("@reactjs")),
      ContentItem(
        "3", Video, "Advanced TypeScript Patterns",
        Body3,
        ["TypeScript", "Programming", "Tutorial"], "2024-01-13",
        Some("https://youtube.com/watch?v=example"), Some("Code Academy")),
      ContentItem(
        "4", Audio, "The Psychology of User Experience",
        Body4,
        ["UX", "Psychology", "Design", "Podcast"], "2024-01-12",
        None, Some("UX Podcast")),
      ContentItem(
        "5", Bookmark, "CSS Grid Generator Tool",
        Body5,
        ["CSS", "Tools", "Grid", "Design"], "2024-01-11",
        Some("https://cssgrid-generator.netlify.app"), None),
      ContentItem(
        "6", Article, "Building Scalable React Applications",
        Body6,
        ["React", "Architecture", "Scalability", "Best Practices"], "2024-01-10",
        Some("https://example.com/scalable-react"), Some("React Patterns"))
    ]
  }

  /** The seed store holds six items with ids "1" to "6", in that order. */
  lemma MockContentIds()
    ensures Ids(MockContent()) == ["1", "2", "3", "4", "5", "6"]
  {
    var s := MockContent();
    var ids := ["1", "2", "3", "4", "5", "6"];
    assert s[0].id == ids[0] && s[1].id == ids[1] && s[2].id == ids[2];
    assert s[3].id == ids[3] && s[4].id == ids[4] && s[5].id == ids[5];
  }

  lemma MockContentDistinct()
    ensures DistinctIds(MockContent())
  {
    MockContentIds();
  }

  /** The seed's types, in order; every content type occurs in it. */
  lemma MockContentKinds()
    ensures |MockContent()| == 6
    ensures MockContent()[0].kind == Article && MockContent()[1].kind == Tweet
    ensures MockContent()[2].kind == Video && MockContent()[3].kind == Audio
    ensures MockContent()[4].kind == Bookmark && MockContent()[5].kind == Article
    ensures Kinds(MockContent()) == {Tweet, Article, Video, Audio, Bookmark}
  {
  }
}
