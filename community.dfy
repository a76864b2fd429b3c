/** The community pages (ivy_intelligence/apps/community/views.py): the post
    feed and its filter, posting, liking, commenting and soft deletion,
    joining a domain group, and the chat's send and poll endpoints. The rows
    are those of ivy_intelligence/apps/community/models.py; each view returns
    what it decided instead of a redirect or a JSON body. */
module Community {
  import opened Wrappers
  import opened Text
  import opened Profiles

  datatype Post = Post(id: nat, author: UserId, content: string, domainTag: string, group: Option<nat>,
                       likes: set<UserId>, isActive: bool)

  datatype Comment = Comment(id: nat, post: nat, author: UserId, content: string)

  datatype Group = Group(id: nat, name: string, domain: string, members: set<UserId>)

  datatype ChatMessage = ChatMessage(id: nat, group: nat, sender: UserId, message: string)

  /** Adding a user who is absent, removing one who is present: the like and
      membership toggles. */
  function Toggle(s: set<UserId>, u: UserId): (t: set<UserId>)
    ensures u in t <==> u !in s
    ensures forall v :: v != u ==> (v in t <==> v in s)
    ensures |t| == if u in s then |s| - 1 else |s| + 1
  {
    if u in s then s - {u} else s + {u}
  }

  /** Toggling twice restores the set. */
  lemma ToggleTwice(s: set<UserId>, u: UserId)
    ensures Toggle(Toggle(s, u), u) == s
  {
  }

  /** Keys distinct and below their next key in every table; chat messages
      stored in key order, so table order is the order they were sent. */
  predicate CommunityInvariant(posts: seq<Post>, comments: seq<Comment>, groups: seq<Group>, messages: seq<ChatMessage>,
                               nextPost: nat, nextComment: nat, nextMessage: nat)
  {
    && (forall i :: 0 <= i < |posts| ==> posts[i].id < nextPost)
    && (forall i, j :: 0 <= i < j < |posts| ==> posts[i].id != posts[j].id)
    && (forall i :: 0 <= i < |comments| ==> comments[i].id < nextComment)
    && (forall i, j :: 0 <= i < j < |comments| ==> comments[i].id != comments[j].id)
    && (forall i, j :: 0 <= i < j < |groups| ==> groups[i].id != groups[j].id)
    && (forall i :: 0 <= i < |messages| ==> messages[i].id < nextMessage)
    && (forall i, j :: 0 <= i < j < |messages| ==> messages[i].id < messages[j].id)
  }

  /** Does the feed show this active post? A domain filter shows exactly that
      tag; otherwise a user with domains sees those tags and GENERAL; a user
      without domains sees everything. */
  predicate FeedShows(p: Post, domainFilter: string, userDomains: seq<string>): (shown: bool)
    ensures domainFilter == "" && p.domainTag == "GENERAL" ==> shown
    ensures domainFilter != "" && p.domainTag != domainFilter ==> !shown
    ensures domainFilter == "" && p.domainTag in userDomains ==> shown
  {
    if domainFilter != "" then p.domainTag == domainFilter
    else if userDomains != [] then p.domainTag in userDomains + ["GENERAL"]
    else true
  }

  /** Position of the first row satisfying a key test, if any. */
  function FindPost(posts: seq<Post>, id: nat, activeOnly: bool, author: Option<UserId>): (r: Option<nat>)
    ensures r.Some? ==> r.value < |posts| && posts[r.value].id == id && (activeOnly ==> posts[r.value].isActive) &&
                        (author.Some? ==> posts[r.value].author == author.value)
    ensures r.None? ==> forall i :: 0 <= i < |posts| ==>
                          posts[i].id != id || (activeOnly && !posts[i].isActive) || (author.Some? && posts[i].author != author.value)
  {
    if posts == [] then None
    else
      var p := posts[|posts| - 1];
      if p.id == id && (activeOnly ==> p.isActive) && (author.Some? ==> p.author == author.value) then Some(|posts| - 1)
      else FindPost(posts[..|posts| - 1], id, activeOnly, author)
  }

  function FindGroup(groups: seq<Group>, id: nat): (r: Option<nat>)
    ensures r.Some? ==> r.value < |groups| && groups[r.value].id == id
    ensures r.None? ==> forall i :: 0 <= i < |groups| ==> groups[i].id != id
  {
    if groups == [] then None
    else if groups[|groups| - 1].id == id then Some(|groups| - 1)
    else FindGroup(groups[..|groups| - 1], id)
  }

  datatype PostOutcome = EmptyPost | Posted(id: nat, inGroup: bool)
  datatype LikeOutcome = LikeNotFound | Liked(liked: bool, count: nat)
  datatype CommentOutcome = CommentNotFound | EmptyComment | Commented(id: nat)
  datatype JoinOutcome = GroupNotFound | Joined | LeftGroup
  /** The responses of `send_message`: 404, 403, 400, or the stored message. */
  datatype SendOutcome = SendNotFound | NotMember | EmptyMessage | Sent(id: nat)

  /** The longest page `get_messages` returns. */
  const MESSAGE_PAGE := 50

  /** The community tables. */
  class Store {
    var posts: seq<Post>
    var comments: seq<Comment>
    var groups: seq<Group>
    var messages: seq<ChatMessage>
    var nextPost: nat
    var nextComment: nat
    var nextMessage: nat

    ghost predicate Valid()
      reads this
    {
      CommunityInvariant(posts, comments, groups, messages, nextPost, nextComment, nextMessage)
    }

    constructor (groups: seq<Group>)
      requires forall i, j :: 0 <= i < j < |groups| ==> groups[i].id != groups[j].id
      ensures Valid() && this.groups == groups && posts == [] && comments == [] && messages == []
    {
      this.groups := groups;
      posts, comments, messages := [], [], [];
      nextPost, nextComment, nextMessage := 1, 1, 1;
    }

    /** `feed`: the active posts the filter shows, in table order. */
    function Feed(domainFilter: string, userDomains: seq<string>): (shown: seq<Post>)
      reads this
      ensures forall p :: p in shown <==> p in posts && p.isActive && FeedShows(p, domainFilter, userDomains)
    {
      Filter(posts, (p: Post) => p.isActive && FeedShows(p, domainFilter, userDomains))
    }

    /** `create_post`: content blank after stripping creates nothing; otherwise
        an active post of the caller with the stripped content, no likes and
        the given tag, GENERAL when none is given; a group key that names a
        group attaches the post to it. Only the POST branch is modelled: a
        GET shows the form and creates nothing. */
    method CreatePost(user: UserId, content: string, domainTag: Option<string>, groupId: Option<nat>) returns (outcome: PostOutcome)
      requires Valid()
      modifies this
      ensures Valid()
      ensures comments == old(comments) && groups == old(groups) && messages == old(messages)
      ensures outcome.EmptyPost? <==> Strip(content) == ""
      ensures outcome.EmptyPost? ==> posts == old(posts)
      ensures outcome.Posted? ==>
                var attached := if groupId.Some? && FindGroup(groups, groupId.value).Some? then groupId else None;
                && outcome.inGroup == attached.Some?
                && posts == old(posts) + [Post(outcome.id, user, Strip(content), domainTag.GetOr("GENERAL"), attached, {}, true)]
    {
      var text := Strip(content);
      if text == "" {
        return EmptyPost;
      }
      var id := nextPost;
      var attached: Option<nat> := None;
      if groupId.Some? && FindGroup(groups, groupId.value).Some? {
        attached := groupId;
      }
      posts := posts + [Post(id, user, text, domainTag.GetOr("GENERAL"), attached, {}, true)];
      nextPost := nextPost + 1;
      outcome := Posted(id, attached.Some?);
    }

    /** `toggle_like`: only an active post is found; the caller's like is
        toggled; the reply is the new state and the new number of likes. */
    method ToggleLike(user: UserId, postId: nat) returns (outcome: LikeOutcome)
      requires Valid()
      modifies this
      ensures Valid()
      ensures comments == old(comments) && groups == old(groups) && messages == old(messages)
      ensures var i := FindPost(old(posts), postId, true, None);
              && (outcome.LikeNotFound? <==> i.None?)
              && (i.None? ==> posts == old(posts))
              && (i.Some? ==>
                    var likes := Toggle(old(posts)[i.value].likes, user);
                    && posts == old(posts)[i.value := old(posts)[i.value].(likes := likes)]
                    && outcome == Liked(user in likes, |likes|))
    {
      var found := FindPost(posts, postId, true, None);
      if found.None? {
        return LikeNotFound;
      }
      var p := posts[found.value];
      var liked: bool;
      if user in p.likes {
        p := p.(likes := p.likes - {user});
        liked := false;
      } else {
        p := p.(likes := p.likes + {user});
        liked := true;
      }
      posts := posts[found.value := p];
      outcome := Liked(liked, |p.likes|);
    }

    /** `add_comment`: only an active post is found; content blank after
        stripping creates nothing; otherwise the caller's comment is added. */
    method AddComment(user: UserId, postId: nat, content: string) returns (outcome: CommentOutcome)
      requires Valid()
      modifies this
      ensures Valid()
      ensures posts == old(posts) && groups == old(groups) && messages == old(messages)
      ensures outcome.CommentNotFound? <==> FindPost(posts, postId, true, None).None?
      ensures outcome.EmptyComment? <==> FindPost(posts, postId, true, None).Some? && Strip(content) == ""
      ensures !outcome.Commented? ==> comments == old(comments)
      ensures outcome.Commented? ==> comments == old(comments) + [Comment(outcome.id, postId, user, Strip(content))]
    {
      if FindPost(posts, postId, true, None).None? {
        return CommentNotFound;
      }
      var text := Strip(content);
      if text == "" {
        return EmptyComment;
      }
      var id := nextComment;
      comments := comments + [Comment(id, postId, user, text)];
      nextComment := nextComment + 1;
      outcome := Commented(id);
    }

    /** `delete_post`: only the caller's own post is found, active or not,
        and it is hidden rather than removed. */
    method DeletePost(user: UserId, postId: nat) returns (found: bool)
      requires Valid()
      modifies this
      ensures Valid()
      ensures comments == old(comments) && groups == old(groups) && messages == old(messages)
      ensures var i := FindPost(old(posts), postId, false, Some(user));
              && (found <==> i.Some?)
              && (i.None? ==> posts == old(posts))
              && (i.Some? ==> posts == old(posts)[i.value := old(posts)[i.value].(isActive := false)])
    {
      var i := FindPost(posts, postId, false, Some(user));
      if i.None? {
        return false;
      }
      posts := posts[i.value := posts[i.value].(isActive := false)];
      found := true;
    }

    /** `join_group`: the caller's membership is toggled. */
    method JoinGroup(user: UserId, groupId: nat) returns (outcome: JoinOutcome)
      requires Valid()
      modifies this
      ensures Valid()
      ensures posts == old(posts) && comments == old(comments) && messages == old(messages)
      ensures var i := FindGroup(old(groups), groupId);
              && (outcome.GroupNotFound? <==> i.None?)
              && (i.None? ==> groups == old(groups))
              && (i.Some? ==>
                    var members := Toggle(old(groups)[i.value].members, user);
                    && groups == old(groups)[i.value := old(groups)[i.value].(members := members)]
                    && (outcome == Joined <==> user in members))
    {
      var i := FindGroup(groups, groupId);
      if i.None? {
        return GroupNotFound;
      }
      var g := groups[i.value];
      if user in g.members {
        groups := groups[i.value := g.(members := g.members - {user})];
        outcome := LeftGroup;
      } else {
        groups := groups[i.value := g.(members := g.members + {user})];
        outcome := Joined;
      }
    }

    /** `send_message`: a missing group is 404; a non-member is refused (403)
        before the text is looked at; a text blank after stripping is refused
        (400); otherwise the stripped message is stored. */
    method SendMessage(user: UserId, groupId: nat, text: string) returns (outcome: SendOutcome)
      requires Valid()
      modifies this
      ensures Valid()
      ensures posts == old(posts) && comments == old(comments) && groups == old(groups)
      ensures var i := FindGroup(groups, groupId);
              && (outcome.SendNotFound? <==> i.None?)
              && (outcome.NotMember? <==> i.Some? && user !in groups[i.value].members)
              && (outcome.EmptyMessage? <==> i.Some? && user in groups[i.value].members && Strip(text) == "")
      ensures !outcome.Sent? ==> messages == old(messages)
      ensures outcome.Sent? ==> messages == old(messages) + [ChatMessage(outcome.id, groupId, user, Strip(text))]
    {
      var i := FindGroup(groups, groupId);
      if i.None? {
        return SendNotFound;
      }
      if user !in groups[i.value].members {
        return NotMember;
      }
      var message := Strip(text);
      if message == "" {
        return EmptyMessage;
      }
      var id := nextMessage;
      messages := messages + [ChatMessage(id, groupId, user, message)];
      nextMessage := nextMessage + 1;
      outcome := Sent(id);
    }

    /** `get_messages(after)`: None for a missing group; otherwise this
        group's messages with a key above `after`, oldest first, at most 50. */
    function GetMessages(groupId: nat, after: int): (page: Option<seq<ChatMessage>>)
      reads this
      ensures page.None? <==> FindGroup(groups, groupId).None?
      ensures page.Some? ==> |page.value| <= MESSAGE_PAGE && page.value <= NewerMessages(messages, groupId, after)
    {
      if FindGroup(groups, groupId).None? then None
      else Some(Prefix(NewerMessages(messages, groupId, after), MESSAGE_PAGE))
    }
  }

  /** The messages of a group with a key above `after`, in table order. */
  function NewerMessages(messages: seq<ChatMessage>, groupId: nat, after: int): (r: seq<ChatMessage>)
    ensures forall m :: m in r <==> m in messages && m.group == groupId && m.id > after
  {
    Filter(messages, (m: ChatMessage) => m.group == groupId && m.id > after)
  }

  /** Filtering keeps the table order. */
  lemma {:induction false} FilterKeepsOrder(messages: seq<ChatMessage>, groupId: nat, after: int)
    requires forall i, j :: 0 <= i < j < |messages| ==> messages[i].id < messages[j].id
    ensures var r := NewerMessages(messages, groupId, after);
            forall i, j :: 0 <= i < j < |r| ==> r[i].id < r[j].id
  {
    if messages != [] {
      var init, m := messages[..|messages| - 1], messages[|messages| - 1];
      assert messages == init + [m];
      FilterSnoc(init, m, (m: ChatMessage) => m.group == groupId && m.id > after);
      FilterKeepsOrder(init, groupId, after);
      var r0 := NewerMessages(init, groupId, after);
      forall x | x in r0 ensures x.id < m.id {
        var k :| 0 <= k < |init| && init[k] == x;
      }
    }
  }

  /** A poll returns only this group's messages newer than `after`, oldest
      first, at most 50; with fewer than 50 it returns every one of them. */
  lemma GetMessagesSpec(s: Store, groupId: nat, after: int)
    requires s.Valid() && FindGroup(s.groups, groupId).Some?
    ensures var page := s.GetMessages(groupId, after).value;
            && |page| <= MESSAGE_PAGE
            && (forall m :: m in page ==> m in s.messages && m.group == groupId && m.id > after)
            && (forall i, j :: 0 <= i < j < |page| ==> page[i].id < page[j].id)
            && (|page| < MESSAGE_PAGE ==> forall m :: m in s.messages && m.group == groupId && m.id > after ==> m in page)
  {
    var all := NewerMessages(s.messages, groupId, after);
    var page := s.GetMessages(groupId, after).value;
    FilterKeepsOrder(s.messages, groupId, after);
    assert forall i :: 0 <= i < |page| ==> page[i] == all[i];
    forall m | m in page ensures m in all {
      var k :| 0 <= k < |page| && page[k] == m;
    }
  }

  /** Liking twice leaves the post's likes as they were. */
  lemma LikeTwiceRestores(p: Post, user: UserId)
    ensures p.(likes := Toggle(p.likes, user)).(likes := Toggle(Toggle(p.likes, user), user)) == p
  {
    ToggleTwice(p.likes, user);
  }
}
