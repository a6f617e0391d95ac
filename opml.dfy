/** OPML 2.0 subscription lists: the outline tree after XML decoding, and the flattening of its
    outlines into feeds, one per outline carrying an `xmlUrl`, in document (pre-)order. */
module Opml {
  import opened Wrappers
  import opened Seqs

  datatype Outline = Outline(
    title: string,
    text: string,
    kind: string,
    xmlUrl: string,
    htmlUrl: string,
    children: seq<Outline>)

  /** The `<opml>` document: version, head title and the top-level body outlines. */
  datatype Document = Document(version: string, title: string, outlines: seq<Outline>)

  /** A subscription found in the list. */
  datatype FeedEntry = FeedEntry(title: string, url: string)

  /** What reading and decoding the file produced. */
  datatype OpmlFile = ReadFailed(message: string) | Malformed(message: string) | Decoded(doc: Document)

  predicate HasFeed(o: Outline) {
    o.xmlUrl != ""
  }

  /** The feed an outline stands for: its xmlUrl, titled by its title attribute or else its text. */
  function EntryOf(o: Outline): (r: FeedEntry)
    ensures r.url == o.xmlUrl
    ensures r.title == if o.title != "" then o.title else o.text
  {
    FeedEntry(if o.title == "" then o.text else o.title, o.xmlUrl)
  }

  /** extractFeeds: the outline's own feed, then those of its children in order. */
  function ExtractFeeds(o: Outline): (r: seq<FeedEntry>)
    decreases o, 1
  {
    (if HasFeed(o) then [EntryOf(o)] else []) + ExtractAll(o.children)
  }

  /** The feeds of a list of sibling outlines, concatenated in document order. */
  function ExtractAll(os: seq<Outline>): seq<FeedEntry>
    decreases os, 0
  {
    if |os| == 0 then [] else ExtractFeeds(os[0]) + ExtractAll(os[1..])
  }

  /** Every outline of the tree in pre-order: the outline itself, then its descendants. */
  function Preorder(o: Outline): seq<Outline>
    decreases o, 1
  {
    [o] + PreorderAll(o.children)
  }

  function PreorderAll(os: seq<Outline>): seq<Outline>
    decreases os, 0
  {
    if |os| == 0 then [] else Preorder(os[0]) + PreorderAll(os[1..])
  }

  /** The extracted feeds are exactly the outlines with an xmlUrl, taken in pre-order. */
  lemma {:induction false} ExtractIsPreorder(o: Outline)
    ensures ExtractFeeds(o) == Map(EntryOf, Filter(Preorder(o), HasFeed))
    decreases o, 1
  {
    ExtractAllIsPreorder(o.children);
    FilterConcat([o], PreorderAll(o.children), HasFeed);
    MapConcat(EntryOf, Filter([o], HasFeed), Filter(PreorderAll(o.children), HasFeed));
    assert [o][1..] == [];
  }

  lemma {:induction false} ExtractAllIsPreorder(os: seq<Outline>)
    ensures ExtractAll(os) == Map(EntryOf, Filter(PreorderAll(os), HasFeed))
    decreases os, 0
  {
    if |os| > 0 {
      ExtractIsPreorder(os[0]);
      ExtractAllIsPreorder(os[1..]);
      FilterConcat(Preorder(os[0]), PreorderAll(os[1..]), HasFeed);
      MapConcat(EntryOf, Filter(Preorder(os[0]), HasFeed), Filter(PreorderAll(os[1..]), HasFeed));
    }
  }

  /** The entry stands for some outline of the tree that has an xmlUrl. */
  predicate EntryOfSome(os: seq<Outline>, e: FeedEntry) {
    exists o: Outline :: o in PreorderAll(os) && HasFeed(o) && e == EntryOf(o)
  }

  /** As many feeds as outlines, at any depth, with a non-empty xmlUrl; and each feed is one of them. */
  lemma ExtractCount(os: seq<Outline>)
    ensures |ExtractAll(os)| == Count(PreorderAll(os), HasFeed)
    ensures forall i :: 0 <= i < |ExtractAll(os)| ==> EntryOfSome(os, ExtractAll(os)[i])
  {
    ExtractAllIsPreorder(os);
    CountIsFilterLength(PreorderAll(os), HasFeed);
    FilterMembers(PreorderAll(os), HasFeed);
    var kept := Filter(PreorderAll(os), HasFeed);
    forall i | 0 <= i < |ExtractAll(os)| ensures EntryOfSome(os, ExtractAll(os)[i]) {
      var o := kept[i];
      assert o in PreorderAll(os) && HasFeed(o) && ExtractAll(os)[i] == EntryOf(o);
    }
  }

  /** An outline's own feed comes before the feeds of its descendants. */
  lemma OwnFeedFirst(o: Outline)
    requires HasFeed(o)
    ensures |ExtractFeeds(o)| > 0 && ExtractFeeds(o)[0] == FeedEntry(if o.title == "" then o.text else o.title, o.xmlUrl)
  {
  }

  /** ParseOPML: a read or decode failure gives an error and no feeds; otherwise the feeds of the
      top-level outlines, concatenated in order. */
  function ParseOPML(file: OpmlFile): (r: Result<seq<FeedEntry>>)
    ensures file.ReadFailed? ==> r == Err("failed to read OPML file: " + file.message)
    ensures file.Malformed? ==> r == Err("failed to parse OPML file: " + file.message)
    ensures file.Decoded? ==> r.Ok? && r.value == Map(EntryOf, Filter(PreorderAll(file.doc.outlines), HasFeed))
  {
    match file
    case ReadFailed(m) => Err("failed to read OPML file: " + m)
    case Malformed(m) => Err("failed to parse OPML file: " + m)
    case Decoded(doc) =>
      ExtractAllIsPreorder(doc.outlines);
      Ok(ExtractAll(doc.outlines))
  }
}
