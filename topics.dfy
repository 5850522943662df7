/**
 * The topic badges of a card (script.js, inside `displayRepos`): at most
 * five escaped topics in their order, then one "+N" badge counting the
 * topics left out. No topics, no badge block at all.
 */
module Topics {
  import opened Wrappers
  import Escape
  import Decimal

  const MaxShown := 5

  datatype Badge = Topic(text: string) | Overflow(hidden: nat)

  /** The text a badge shows. */
  function BadgeText(b: Badge): string {
    match b
    case Topic(text) => text
    case Overflow(hidden) => "+" + Decimal.NatToString(hidden)
  }

  function Min(a: int, b: int): int {
    if a <= b then a else b
  }

  function TopicBadges(topics: seq<string>): (r: Option<seq<Badge>>)
    ensures r == None <==> |topics| == 0
    ensures r != None ==> |r.value| == Min(MaxShown, |topics|) + (if |topics| > MaxShown then 1 else 0)
    ensures r != None ==> forall i :: 0 <= i < Min(MaxShown, |topics|) ==> r.value[i] == Topic(Escape.EscapeHtml(topics[i]))
    ensures r != None && |topics| > MaxShown ==> r.value[MaxShown] == Overflow(|topics| - MaxShown)
  {
    if |topics| == 0 then None
    else
      var shown := topics[..Min(MaxShown, |topics|)];
      var inner := seq(|shown|, i requires 0 <= i < |shown| => Topic(Escape.EscapeHtml(shown[i])));
      Some(inner + if |topics| > MaxShown then [Overflow(|topics| - MaxShown)] else [])
  }

  function CountTopics(bs: seq<Badge>): nat {
    if bs == [] then 0 else (if bs[0].Topic? then 1 else 0) + CountTopics(bs[1..])
  }

  /** The number of topics hidden behind the overflow badges. */
  function HiddenTopics(bs: seq<Badge>): nat {
    if bs == [] then 0 else (match bs[0] case Overflow(h) => h case Topic(_) => 0) + HiddenTopics(bs[1..])
  }

  function CountOverflows(bs: seq<Badge>): nat {
    if bs == [] then 0 else (if bs[0].Overflow? then 1 else 0) + CountOverflows(bs[1..])
  }

  lemma {:induction false} CountsOfTopicBadges(ts: seq<string>, bs: seq<Badge>)
    requires |bs| == |ts|
    requires forall i :: 0 <= i < |bs| ==> bs[i] == Topic(Escape.EscapeHtml(ts[i]))
    ensures CountTopics(bs) == |bs| && CountOverflows(bs) == 0 && HiddenTopics(bs) == 0
  {
    if bs != [] {
      CountsOfTopicBadges(ts[1..], bs[1..]);
    }
  }

  lemma {:induction false} CountsAppend(a: seq<Badge>, b: seq<Badge>)
    ensures CountTopics(a + b) == CountTopics(a) + CountTopics(b)
    ensures CountOverflows(a + b) == CountOverflows(a) + CountOverflows(b)
    ensures HiddenTopics(a + b) == HiddenTopics(a) + HiddenTopics(b)
  {
    if a == [] {
      assert a + b == b;
    } else {
      assert (a + b)[1..] == a[1..] + b;
      CountsAppend(a[1..], b);
    }
  }

  /**
   * A non-empty topic list shows min(5, n) topic badges and one overflow
   * badge exactly when n > 5; shown and hidden topics add up to n.
   */
  lemma TopicBadgeCounts(topics: seq<string>)
    requires |topics| > 0
    ensures var bs := TopicBadges(topics).value;
      && CountTopics(bs) == Min(MaxShown, |topics|)
      && CountOverflows(bs) == (if |topics| > MaxShown then 1 else 0)
      && CountTopics(bs) + HiddenTopics(bs) == |topics|
  {
    var bs := TopicBadges(topics).value;
    var k := Min(MaxShown, |topics|);
    var tail := bs[k..];
    assert bs == bs[..k] + tail;
    CountsOfTopicBadges(topics[..k], bs[..k]);
    CountsAppend(bs[..k], tail);
    if |topics| > MaxShown {
      assert tail == [Overflow(|topics| - MaxShown)];
      assert tail[1..] == [];
    } else {
      assert tail == [];
    }
  }

  /** No topic badge carries a raw `<` or `>`. */
  lemma TopicBadgesEscaped(topics: seq<string>)
    ensures TopicBadges(topics) != None ==>
      forall b :: b in TopicBadges(topics).value ==> '<' !in BadgeText(b) && '>' !in BadgeText(b)
  {
    var bs := TopicBadges(topics).GetOr([]);
    forall b | b in bs
      ensures '<' !in BadgeText(b) && '>' !in BadgeText(b)
    {
      if b.Overflow? {
        var d := Decimal.NatToString(b.hidden);
        assert BadgeText(b) == "+" + d;
        assert forall i :: 0 <= i < |d| ==> Decimal.IsDigit(d[i]);
      }
    }
  }

  /** Seven topics give five topic badges and a "+2" badge. */
  lemma SevenTopics(topics: seq<string>)
    requires |topics| == 7
    ensures |TopicBadges(topics).value| == 6
    ensures BadgeText(TopicBadges(topics).value[5]) == "+2"
  {
    assert Decimal.NatToString(2) == "2";
  }
}
