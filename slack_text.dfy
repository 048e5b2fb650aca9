/** The message text shared by the functions: a Slack user mention and what can be read back from it. */
module SlackText {

  /** A Slack user id as the platform issues it: it never contains the mention's closing `>`. */
  predicate PlainUserId(userId: string) {
    '>' !in userId
  }

  /** `<@user_id>`, the mention that opens every confirmation message. */
  function Mention(userId: string): string {
    "<@" + userId + ">"
  }

  /** Two mentions that both open the same text mention the same user. */
  lemma MentionPrefixInjective(s: string, u1: string, u2: string)
    requires PlainUserId(u1) && PlainUserId(u2)
    requires |Mention(u1)| <= |s| && s[..|Mention(u1)|] == Mention(u1)
    requires |Mention(u2)| <= |s| && s[..|Mention(u2)|] == Mention(u2)
    ensures u1 == u2
  {
    assert forall i | 0 <= i < |u1| :: s[2 + i] == Mention(u1)[2 + i] == u1[i];
    assert forall i | 0 <= i < |u2| :: s[2 + i] == Mention(u2)[2 + i] == u2[i];
    assert s[2 + |u1|] == Mention(u1)[2 + |u1|] == '>';
    assert s[2 + |u2|] == Mention(u2)[2 + |u2|] == '>';
    assert |u1| == |u2|;
    assert u1 == u2;
  }
}
