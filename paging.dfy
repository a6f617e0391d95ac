/** Keyset pagination shared by ListContents and ListSources: rows are ordered by their text id,
    a query fetches `limit + 1` rows after the token, and the token handed back is the id of the
    last row returned when (and only when) more rows remain. */
module Paging {
  import opened Text
  import opened Seqs

  datatype Page<T> = Page(items: seq<T>, nextToken: string)

  const DefaultListLimit: int := 50

  /** A limit of zero or below means the default page size. */
  function ListLimit(limit: int): (n: int)
    ensures n >= 1
    ensures limit > 0 ==> n == limit
    ensures limit <= 0 ==> n == DefaultListLimit
  {
    if limit <= 0 then DefaultListLimit else limit
  }

  /** `WHERE id > token`, added only for a non-empty token. */
  function AfterToken<T>(sorted: seq<T>, key: T -> string, token: string): seq<T> {
    if token == "" then sorted else Filter(sorted, x => Less(token, key(x)))
  }

  /** `ORDER BY id ASC LIMIT limit+1`, then the trimming of the extra row into the next token. */
  function Paginate<T>(sorted: seq<T>, key: T -> string, limit: int, token: string): Page<T>
    requires limit >= 1
  {
    PageOf(AfterToken(sorted, key, token), key, limit)
  }

  /** The page cut from the rows after the token. */
  function PageOf<T>(rest: seq<T>, key: T -> string, limit: int): Page<T>
    requires limit >= 1
  {
    var fetched := Take(rest, limit + 1);
    if |fetched| > limit then Page(fetched[..limit], key(fetched[limit - 1]))
    else Page(fetched, "")
  }

  lemma PageOfShape<T>(rest: seq<T>, key: T -> string, limit: int)
    requires limit >= 1
    ensures PageOf(rest, key, limit).items == Take(rest, limit)
    ensures PageOf(rest, key, limit).nextToken != "" ==> |rest| > limit && PageOf(rest, key, limit).nextToken == key(rest[limit - 1])
    ensures |rest| > limit && key(rest[limit - 1]) != "" ==> PageOf(rest, key, limit).nextToken != ""
  {
  }

  /** A page cut from ascending rows with non-empty keys: a prefix of at most `limit` rows, still
      ascending, and a next token exactly when rows are left over, naming the last row returned. */
  lemma PageOfRows<T>(rest: seq<T>, key: T -> string, limit: int)
    requires limit >= 1 && SortedAsc(rest, key) && NonEmptyKeys(rest, key)
    ensures PageOf(rest, key, limit).items == Take(rest, limit)
    ensures SortedAsc(PageOf(rest, key, limit).items, key)
    ensures forall x :: x in PageOf(rest, key, limit).items ==> x in rest
    ensures PageOf(rest, key, limit).nextToken != "" <==> |rest| > limit
    ensures var page := PageOf(rest, key, limit);
            page.nextToken != "" ==> page.nextToken == key(page.items[|page.items| - 1])
  {
    PageOfShape(rest, key, limit);
    TakeSortedAsc(rest, key, limit);
  }

  predicate NonEmptyKeys<T>(s: seq<T>, key: T -> string) {
    forall i :: 0 <= i < |s| ==> key(s[i]) != ""
  }

  /** A token equal to the key of the k-th row skips exactly the first k+1 rows. */
  lemma AfterTokenAt<T>(sorted: seq<T>, key: T -> string, k: nat)
    requires SortedAsc(sorted, key) && NonEmptyKeys(sorted, key)
    requires k < |sorted|
    ensures AfterToken(sorted, key, key(sorted[k])) == sorted[k + 1..]
  {
    var token := key(sorted[k]);
    var p := x => Less(token, key(x));
    assert sorted == sorted[..k + 1] + sorted[k + 1..];
    forall x | x in sorted[..k + 1] ensures !p(x) {
      var i :| 0 <= i < k + 1 && sorted[i] == x;
      if i < k {
        LessAsymmetric(key(sorted[i]), token);
      } else {
        LessIrreflexive(token);
      }
    }
    FilterNone(sorted[..k + 1], p);
    forall x | x in sorted[k + 1..] ensures p(x) {
      var i :| k + 1 <= i < |sorted| && sorted[i] == x;
    }
    FilterAll(sorted[k + 1..], p);
    FilterConcat(sorted[..k + 1], sorted[k + 1..], p);
  }

  /** The token a client holds after it has received the first `m` rows: none before the first page. */
  function TokenAt<T>(sorted: seq<T>, key: T -> string, m: nat): string
    requires m <= |sorted|
  {
    if m == 0 then "" else key(sorted[m - 1])
  }

  /** The rows after the token held once the first `m` rows have been received are exactly the rest. */
  lemma AfterTokenAfter<T>(sorted: seq<T>, key: T -> string, m: nat)
    requires SortedAsc(sorted, key) && NonEmptyKeys(sorted, key)
    requires m <= |sorted|
    ensures AfterToken(sorted, key, TokenAt(sorted, key, m)) == sorted[m..]
  {
    if m > 0 {
      AfterTokenAt(sorted, key, m - 1);
    }
  }

  /** The page requested once the first `m` rows have been received: the next `limit` rows, and
      a token standing for the rows received so far exactly when more remain. */
  lemma PageAt<T>(sorted: seq<T>, key: T -> string, limit: int, m: nat)
    requires limit >= 1 && SortedAsc(sorted, key) && NonEmptyKeys(sorted, key)
    requires m <= |sorted|
    ensures Paginate(sorted, key, limit, TokenAt(sorted, key, m)).items == Take(sorted[m..], limit)
    ensures Paginate(sorted, key, limit, TokenAt(sorted, key, m)).nextToken != "" <==> |sorted| - m > limit
    ensures |sorted| - m > limit ==>
              && Paginate(sorted, key, limit, TokenAt(sorted, key, m)).nextToken == TokenAt(sorted, key, m + limit)
              && Paginate(sorted, key, limit, TokenAt(sorted, key, m)).items == sorted[m..m + limit]
    ensures |sorted| - m <= limit ==> Paginate(sorted, key, limit, TokenAt(sorted, key, m)).items == sorted[m..]
  {
    AfterTokenAfter(sorted, key, m);
    PageOfShape(sorted[m..], key, limit);
    if |sorted| - m > limit {
      assert sorted[m..][limit - 1] == sorted[m + limit - 1];
      assert sorted[m..][..limit] == sorted[m..m + limit];
    }
  }

  /** What one page promises: at most `limit` rows, all after the token, in ascending order, and a
      next token that is non-empty exactly when rows remain, equal to the last key returned. */
  lemma PageShape<T>(sorted: seq<T>, key: T -> string, limit: int, m: nat)
    requires limit >= 1 && SortedAsc(sorted, key) && NonEmptyKeys(sorted, key)
    requires m <= |sorted|
    ensures var token := TokenAt(sorted, key, m);
            var page := Paginate(sorted, key, limit, token);
            && |page.items| <= limit
            && SortedAsc(page.items, key)
            && (forall i :: 0 <= i < |page.items| ==> token == "" || Less(token, key(page.items[i])))
            && (page.nextToken != "" <==> |sorted| - m > limit)
            && (page.nextToken != "" ==> page.nextToken == key(page.items[|page.items| - 1]))
  {
    PageAt(sorted, key, limit, m);
    var token := TokenAt(sorted, key, m);
    var items := Take(sorted[m..], limit);
    forall i | 0 <= i < |items| ensures token == "" || Less(token, key(items[i])) {
      assert items[i] == sorted[m + i];
    }
    forall i, j | 0 <= i < j < |items| ensures Less(key(items[i]), key(items[j])) {
      assert items[i] == sorted[m + i] && items[j] == sorted[m + j];
    }
    if |sorted| - m > limit {
      assert items[|items| - 1] == sorted[m + limit - 1];
    }
  }

  /** The page each token is answered with. */
  ghost function Requests<T>(sorted: seq<T>, key: T -> string, limit: int): string -> Page<T>
    requires limit >= 1
  {
    token => Paginate(sorted, key, limit, token)
  }

  /** The rows a client collects by requesting `pages(token)`, and then the page of each token
      handed back, until the token comes back empty; `m` counts the rows received before `token`
      was issued, out of `n` (a walk never runs past the end, as FollowAll shows). */
  ghost function Follow<T>(pages: string -> Page<T>, n: nat, limit: nat, token: string, m: nat): seq<T>
    requires limit >= 1 && m <= n
    decreases n - m
  {
    var page := pages(token);
    if page.nextToken == "" || m + limit > n then page.items
    else page.items + Follow(pages, n, limit, page.nextToken, m + limit)
  }

  /** The walk of a client over the sorted rows. */
  ghost function Walk<T>(sorted: seq<T>, key: T -> string, limit: int, token: string, m: nat): seq<T>
    requires limit >= 1 && m <= |sorted|
  {
    Follow(Requests(sorted, key, limit), |sorted|, limit, token, m)
  }

  /** One request of a walk: a page with a token to follow is its rows, then the walk from that token. */
  lemma FollowStep<T>(pages: string -> Page<T>, n: nat, limit: nat, m: nat, token: string, items: seq<T>, next: string)
    requires limit >= 1 && m + limit <= n && next != ""
    requires pages(token) == Page(items, next)
    ensures Follow(pages, n, limit, token, m) == items + Follow(pages, n, limit, next, m + limit)
  {
  }

  /** A page whose token comes back empty ends the walk. */
  lemma FollowLast<T>(pages: string -> Page<T>, n: nat, limit: nat, m: nat, token: string, items: seq<T>)
    requires limit >= 1 && m <= n
    requires pages(token) == Page(items, "")
    ensures Follow(pages, n, limit, token, m) == items
  {
  }

  lemma SplitAt<T>(s: seq<T>, m: nat, k: nat)
    requires m <= k <= |s|
    ensures s[m..] == s[m..k] + s[k..]
  {
  }

  /** The page requested after `m` rows, when more than `limit` remain: the next `limit` rows and
      a token to follow. */
  lemma PageStep<T>(sorted: seq<T>, key: T -> string, limit: int, m: nat)
    requires limit >= 1 && SortedAsc(sorted, key) && NonEmptyKeys(sorted, key)
    requires m + limit < |sorted|
    ensures TokenAt(sorted, key, m + limit) != ""
    ensures Requests(sorted, key, limit)(TokenAt(sorted, key, m))
            == Page(sorted[m..m + limit], TokenAt(sorted, key, m + limit))
  {
    PageAt(sorted, key, limit, m);
  }

  /** The page requested after `m` rows, when at most `limit` remain: all of them, and no token. */
  lemma PageLast<T>(sorted: seq<T>, key: T -> string, limit: int, m: nat)
    requires limit >= 1 && SortedAsc(sorted, key) && NonEmptyKeys(sorted, key)
    requires m <= |sorted| && |sorted| - m <= limit
    ensures Requests(sorted, key, limit)(TokenAt(sorted, key, m)) == Page(sorted[m..], "")
  {
    PageAt(sorted, key, limit, m);
  }

  /** Every page the walk from row `m` requests is answered as PageStep and PageLast describe:
      the next `limit` rows with the token of the last of them while more remain, then the rest
      with no token. */
  ghost predicate Serves<T>(pages: string -> Page<T>, sorted: seq<T>, key: T -> string, limit: int, m: nat)
    requires limit >= 1 && m <= |sorted|
    decreases |sorted| - m
  {
    if m + limit < |sorted| then
      && TokenAt(sorted, key, m + limit) != ""
      && pages(TokenAt(sorted, key, m)) == Page(sorted[m..m + limit], TokenAt(sorted, key, m + limit))
      && Serves(pages, sorted, key, limit, m + limit)
    else
      pages(TokenAt(sorted, key, m)) == Page(sorted[m..], "")
  }

  /** A page with rows to follow extends what the pagination serves by one request. */
  lemma ServedStep<T>(sorted: seq<T>, key: T -> string, limit: int, m: nat)
    requires limit >= 1 && SortedAsc(sorted, key) && NonEmptyKeys(sorted, key)
    requires m + limit < |sorted|
    requires Serves(Requests(sorted, key, limit), sorted, key, limit, m + limit)
    ensures Serves(Requests(sorted, key, limit), sorted, key, limit, m)
  {
    PageStep(sorted, key, limit, m);
  }

  /** Over sorted rows with non-empty keys, the pagination serves every page that way. */
  lemma {:induction false} ServedAll<T>(sorted: seq<T>, key: T -> string, limit: int, m: nat)
    requires limit >= 1 && SortedAsc(sorted, key) && NonEmptyKeys(sorted, key)
    requires m <= |sorted|
    ensures Serves(Requests(sorted, key, limit), sorted, key, limit, m)
    decreases |sorted| - m
  {
    if m + limit < |sorted| {
      ServedAll(sorted, key, limit, m + limit);
      ServedStep(sorted, key, limit, m);
    } else {
      PageLast(sorted, key, limit, m);
    }
  }

  /** Following the tokens of pages served that way visits every remaining row exactly once, in
      order. */
  lemma {:induction false} FollowAll<T>(pages: string -> Page<T>, sorted: seq<T>, key: T -> string, limit: int, m: nat)
    requires limit >= 1 && m <= |sorted|
    requires Serves(pages, sorted, key, limit, m)
    ensures Follow(pages, |sorted|, limit, TokenAt(sorted, key, m), m) == sorted[m..]
    decreases |sorted| - m
  {
    if m + limit < |sorted| {
      FollowAll(pages, sorted, key, limit, m + limit);
      FollowStep(pages, |sorted|, limit, m, TokenAt(sorted, key, m), sorted[m..m + limit], TokenAt(sorted, key, m + limit));
      SplitAt(sorted, m, m + limit);
    } else {
      FollowLast(pages, |sorted|, limit, m, TokenAt(sorted, key, m), sorted[m..]);
    }
  }

  /** Starting from the empty token, a client collects every row exactly once, in ascending order. */
  lemma FullWalk<T>(sorted: seq<T>, key: T -> string, limit: int)
    requires limit >= 1 && SortedAsc(sorted, key) && NonEmptyKeys(sorted, key)
    ensures Walk(sorted, key, limit, "", 0) == sorted
  {
    ServedAll(sorted, key, limit, 0);
    FollowAll(Requests(sorted, key, limit), sorted, key, limit, 0);
  }
}
