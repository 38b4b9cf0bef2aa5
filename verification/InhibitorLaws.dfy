/** Which cookie an inhibitor gets, and when its entry goes (src/idle.c). */
module InhibitorLaws {
  import opened Options
  import opened Inhibitors

  /** A new inhibitor gets the first cookie behind the last one that is not live, and behind 2^32 - 1 comes 1. */
  lemma CookieIs(s: State, sender: string, fd: int)
    requires Valid(s) && Possible(s, Inhibit(sender, fd))
    ensures var s' := Step(s, Inhibit(sender, fd)); var cookie := s'.next;
      if fd < 0 then s' == s
      else
        && 0 < cookie <= 0xFFFF_FFFF && cookie !in s.live
        && s'.live == s.live[cookie := Inhibitor(sender, fd)]
        && s'.taken == s.taken + multiset{fd} && s'.closed == s.closed
        && if s.next < cookie then forall c :: s.next < c < cookie ==> c in s.live
           else
             && (forall c :: s.next < c <= 0xFFFF_FFFF ==> c in s.live)
             && forall c :: 0 < c < cookie ==> c in s.live
  {
    if fd >= 0 {
      var cookie := Found(s.live, s.next);
      forall c | 0 < c < COOKIES && c !in s.live ensures Gap(s.next, cookie) <= Gap(s.next, c) {
        assert Usable(s.live, c);
      }
    }
  }

  /** An entry goes exactly when its owner hands in its cookie, the unique name of its owner vanishes, or the service
      ends; and exactly then its descriptor is closed. */
  lemma EntryGoesIff(s: State, e: Event, c: nat)
    requires Valid(s) && Possible(s, e) && c in s.live
    ensures var sender, fd := s.live[c].sender, s.live[c].fd;
      var goes := e == UnInhibit(sender, c) || e == Shutdown
        || (e == OwnerChanged(sender, "") && |sender| > 0 && sender[0] == ':');
      && (c !in Step(s, e).live <==> goes)
      && Step(s, e).closed[fd] == s.closed[fd] + if goes then 1 else 0
  {
    hide Step;
    OnlyOwnerRemoves(s, e, c);
  }
}
