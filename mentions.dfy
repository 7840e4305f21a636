/** Mention rewriting (index.js:130): for every user in the client's user
    cache, in cache order, `content = content.replaceAll("<@" + id + ">",
    "<@" + tag + ">")`. */
module Mentions {
  import opened Text
  import opened Chat

  /** How the platform writes a mention of `name` in message text. */
  function MentionToken(name: string): (r: string)
    ensures |r| > 2 && r[0] == '<' && r[..2] == "<@"
  {
    "<@" + name + ">"
  }

  /** The text after the first `|users|` rounds of the rewrite, each round
      applied to the result of the rounds before it. */
  function Substituted(s: string, users: seq<CachedUser>): string
    decreases |users|
  {
    if users == [] then s
    else
      var u := users[|users| - 1];
      ReplaceAll(Substituted(s, users[..|users| - 1]), MentionToken(u.id), MentionToken(u.tag))
  }

  /** The `forEach` over the user cache, rewriting `content` in place. */
  method SubstituteMentions(content: string, users: seq<CachedUser>) returns (r: string)
    ensures r == Substituted(content, users)
  {
    r := content;
    for i := 0 to |users|
      invariant r == Substituted(content, users[..i])
    {
      assert users[..i + 1][..i] == users[..i];
      r := ReplaceAll(r, MentionToken(users[i].id), MentionToken(users[i].tag));
    }
    assert users[..|users|] == users;
  }

  /** Text in which no cached user's mention token occurs comes out as it
      went in. */
  lemma {:induction false} SubstitutedNoTokens(s: string, users: seq<CachedUser>)
    requires forall u :: u in users ==> !Occurs(s, MentionToken(u.id))
    ensures Substituted(s, users) == s
    decreases |users|
  {
    if users != [] {
      var u := users[|users| - 1];
      SubstitutedNoTokens(s, users[..|users| - 1]);
      ReplaceAllAbsent(s, MentionToken(u.id), MentionToken(u.tag));
    }
  }

  /** Text with no `<@` in it is never rewritten, whatever the cache holds. */
  lemma SubstitutedPlainText(s: string, users: seq<CachedUser>)
    requires !Occurs(s, "<@")
    ensures Substituted(s, users) == s
  {
    forall u | u in users ensures !Occurs(s, MentionToken(u.id)) {
      if Occurs(s, MentionToken(u.id)) {
        OccursPrefix(s, MentionToken(u.id), 2);
      }
    }
    SubstitutedNoTokens(s, users);
  }

  /** A leading stretch without `<` is never rewritten: every round copies it
      and rewrites only what follows. */
  lemma {:induction false} SubstitutedSkip(a: string, t: string, users: seq<CachedUser>)
    requires '<' !in a
    ensures Substituted(a + t, users) == a + Substituted(t, users)
    decreases |users|
  {
    if users != [] {
      var u := users[|users| - 1];
      var init := users[..|users| - 1];
      SubstitutedSkip(a, t, init);
      ReplaceAllSkip(a, Substituted(t, init), MentionToken(u.id), MentionToken(u.tag));
    }
  }

  /** Every mention token of a cached user is rewritten to a mention of the
      user's tag, and the text around the tokens is kept: text made of
      pieces holding no such token, joined by the token, becomes the same
      pieces joined by the new mention. Ids are snowflakes, so they hold no
      `<`. */
  lemma EveryMentionRewritten(pieces: seq<string>, u: CachedUser)
    requires '<' !in u.id
    requires forall k :: 0 <= k < |pieces| ==> !Occurs(pieces[k], MentionToken(u.id))
    ensures Substituted(JoinWith(pieces, MentionToken(u.id)), [u]) == JoinWith(pieces, MentionToken(u.tag))
  {
    TokenOpensOnce(u.id);
    assert [u][..0] == [];
    ReplaceAllEvery(pieces, MentionToken(u.id), MentionToken(u.tag));
  }

  /** The `<` that opens a mention token of a `<`-free name occurs nowhere
      else in the token. */
  lemma TokenOpensOnce(name: string)
    requires '<' !in name
    ensures MentionToken(name)[0] !in MentionToken(name)[1..]
  {
    var token := MentionToken(name);
    forall i | 1 <= i < |token| ensures token[i] != '<' {
      if 2 <= i < |token| - 1 {
        assert token[i] == name[i - 2];
      }
    }
  }

  /** Successive rounds chain: when one user's tag is another cached user's
      id, a mention of the first user ends up as a mention of the second
      user's tag. */
  lemma RewritesChain(x: string, y: string, z: string)
    requires '<' !in x + y + z
    ensures Substituted(MentionToken(x), [CachedUser(x, y), CachedUser(y, z)]) == MentionToken(z)
  {
    var users := [CachedUser(x, y), CachedUser(y, z)];
    assert users[..1] == [CachedUser(x, y)];
    var pieces := ["", ""];
    assert forall t :: JoinWith(pieces, t) == t;
    EveryMentionRewritten(pieces, CachedUser(x, y));
    EveryMentionRewritten(pieces, CachedUser(y, z));
  }
}
