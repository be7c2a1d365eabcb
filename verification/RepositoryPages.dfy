/** Which repositories a refresh finds: what is asked for page by page, and what comes of all the pages together. */
module RepositoryPages {
  import opened ProjectRows
  import opened ProjectsScheduler

  predicate IsPage(reply: Reply) {
    reply.RepositoryPage? && reply.valid
  }

  predicate FullPages(pages: seq<Reply>) {
    forall i :: 0 <= i < |pages| ==> IsPage(pages[i]) && pages[i].size == PAGE_SIZE
  }

  /** Full pages up to the last one, which is not full. */
  predicate AllPages(pages: seq<Reply>) {
    && pages != [] && FullPages(pages[..|pages| - 1])
    && IsPage(pages[|pages| - 1]) && pages[|pages| - 1].size != PAGE_SIZE
  }

  /** What all pages list, in order. */
  function Listed(pages: seq<Reply>): seq<Repository> {
    if pages == [] then []
    else
      var last := pages[|pages| - 1];
      Listed(pages[..|pages| - 1]) + if last.RepositoryPage? then last.listed else []
  }

  /** Where these replies lead, one after the other, until no further page is asked for. */
  function Turned(authenticated: bool, p: Purpose, replies: seq<Reply>): Turn
    requires p.Repositories? || p.PrivateRepositories?
    requires forall i :: 0 <= i < |replies| ==> replies[i].RepositoryPage? || replies[i].Failed?
  {
    if replies == [] then Another(p)
    else
      match Turned(authenticated, p, replies[..|replies| - 1])
      case Another(q) =>
        if q.Repositories? || q.PrivateRepositories? then PageTurn(authenticated, q, replies[|replies| - 1]) else Stop
      case other => other
  }

  /** After so many full pages the next one is asked for, with everything listed so far. */
  lemma {:induction false} NextPublicPage(authenticated: bool, pages: seq<Reply>)
    requires FullPages(pages)
    ensures Turned(authenticated, Repositories(1, []), pages) == Another(Repositories(|pages| + 1, Listed(pages)))
  {
    if pages != [] {
      NextPublicPage(authenticated, pages[..|pages| - 1]);
    }
  }

  lemma {:induction false} NextPrivatePage(authenticated: bool, found: seq<Repository>, pages: seq<Reply>)
    requires FullPages(pages)
    ensures Turned(authenticated, PrivateRepositories(1, found), pages)
         == Another(PrivateRepositories(|pages| + 1, Merged(found, Listed(pages))))
  {
    if pages != [] {
      var front := pages[..|pages| - 1];
      NextPrivatePage(authenticated, found, front);
      MergedTwice(found, Listed(front), pages[|pages| - 1].listed);
    }
  }

  /** Merging page by page is merging all pages at once. */
  lemma {:induction false} MergedTwice(found: seq<Repository>, a: seq<Repository>, b: seq<Repository>)
    ensures Merged(Merged(found, a), b) == Merged(found, a + b)
  {
    if b == [] {
      assert a + b == a;
    } else {
      var front := b[..|b| - 1];
      assert (a + b)[..|a + b| - 1] == a + front;
      MergedTwice(found, a, front);
    }
  }

  lemma PublicPagesEnd(authenticated: bool, pages: seq<Reply>)
    requires AllPages(pages)
    ensures Turned(authenticated, Repositories(1, []), pages)
         == if authenticated then Another(PrivateRepositories(1, Listed(pages))) else Complete(Listed(pages))
  {
    NextPublicPage(authenticated, pages[..|pages| - 1]);
  }

  lemma PrivatePagesEnd(found: seq<Repository>, pages: seq<Reply>)
    requires AllPages(pages)
    ensures Turned(true, PrivateRepositories(1, found), pages) == Complete(Merged(found, Listed(pages)))
  {
    hide Merged;
    var front := pages[..|pages| - 1];
    NextPrivatePage(true, found, front);
    MergedTwice(found, Listed(front), pages[|pages| - 1].listed);
  }

  lemma PrivatePagesBreak(found: seq<Repository>, pages: seq<Reply>, lost: Reply)
    requires FullPages(pages) && lost.Failed?
    ensures Turned(true, PrivateRepositories(1, found), pages + [lost]) == Complete(Merged(found, Listed(pages)))
  {
    hide Merged;
    NextPrivatePage(true, found, pages);
    assert (pages + [lost])[..|pages|] == pages;
  }

  lemma {:induction false} TurnedConcat(authenticated: bool, p: Purpose, a: seq<Reply>, b: seq<Reply>, q: Purpose)
    requires p.Repositories? || p.PrivateRepositories?
    requires q.Repositories? || q.PrivateRepositories?
    requires forall i :: 0 <= i < |a| ==> a[i].RepositoryPage? || a[i].Failed?
    requires forall i :: 0 <= i < |b| ==> b[i].RepositoryPage? || b[i].Failed?
    requires Turned(authenticated, p, a) == Another(q)
    ensures Turned(authenticated, p, a + b) == Turned(authenticated, q, b)
  {
    hide PageTurn;
    if b == [] {
      assert a + b == a;
    } else {
      assert (a + b)[..|a + b| - 1] == a + b[..|b| - 1];
      TurnedConcat(authenticated, p, a, b[..|b| - 1], q);
    }
  }

  /** Without a token a refresh finds what all public pages list, in their order. */
  lemma PublicRepositoriesAreFound(pages: seq<Reply>)
    requires AllPages(pages)
    ensures Turned(false, Repositories(1, []), pages) == Complete(Listed(pages))
  {
    hide Turned;
    PublicPagesEnd(false, pages);
  }

  /** With a token the private pages follow, and of what they list the refresh adds the repositories not found yet. */
  lemma AllRepositoriesAreFound(publicPages: seq<Reply>, privatePages: seq<Reply>)
    requires AllPages(publicPages) && AllPages(privatePages)
    ensures Turned(true, Repositories(1, []), publicPages + privatePages)
         == Complete(Merged(Listed(publicPages), Listed(privatePages)))
  {
    hide Merged, Turned, Listed;
    PublicPagesEnd(true, publicPages);
    PrivatePagesEnd(Listed(publicPages), privatePages);
    TurnedConcat(true, Repositories(1, []), publicPages, privatePages, PrivateRepositories(1, Listed(publicPages)));
  }

  /** When a private page cannot be had, what has been found before it has to do. */
  lemma LostPrivatePage(publicPages: seq<Reply>, privatePages: seq<Reply>, lost: Reply)
    requires AllPages(publicPages) && FullPages(privatePages) && lost.Failed?
    ensures Turned(true, Repositories(1, []), publicPages + (privatePages + [lost]))
         == Complete(Merged(Listed(publicPages), Listed(privatePages)))
  {
    hide Merged, Turned, Listed;
    PublicPagesEnd(true, publicPages);
    PrivatePagesBreak(Listed(publicPages), privatePages, lost);
    TurnedConcat(true, Repositories(1, []), publicPages, privatePages + [lost],
                 PrivateRepositories(1, Listed(publicPages)));
  }

  /** Without one of the public pages the refresh fails. */
  lemma LostPublicPage(authenticated: bool, pages: seq<Reply>, bad: Reply)
    requires FullPages(pages) && (bad.Failed? || (bad.RepositoryPage? && !bad.valid))
    ensures Turned(authenticated, Repositories(1, []), pages + [bad]) == Stop
  {
    NextPublicPage(authenticated, pages);
    assert (pages + [bad])[..|pages|] == pages;
  }

  /** An invalid private page is no better. */
  lemma InvalidPrivatePage(found: seq<Repository>, pages: seq<Reply>, bad: Reply)
    requires FullPages(pages) && bad.RepositoryPage? && !bad.valid
    ensures Turned(true, PrivateRepositories(1, found), pages + [bad]) == Stop
  {
    hide Merged;
    NextPrivatePage(true, found, pages);
    assert (pages + [bad])[..|pages|] == pages;
  }
}
