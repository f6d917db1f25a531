/**
 * The count extractor of the spider (`_clean_html`): the summary fragment of a
 * results page loses its markup, and the digits after the last "of" are kept.
 */
module Extractor {
  import opened Strings

  /** The separator that `_clean_html` splits on. */
  const Of: string := "of"

  /** The first index of `c` in `s`. */
  function IndexOf(s: string, c: char): (i: nat)
    requires c in s
    ensures i < |s| && s[i] == c && c !in s[..i]
  {
    if s[0] == c then 0 else 1 + IndexOf(s[1..], c)
  }

  /**
   * A simplified `w3lib.html.remove_tags`: every `<` up to and including the next
   * `>` is dropped; a `<` with no `>` after it is kept as text.
   */
  function RemoveTags(html: string): (text: string)
    ensures |text| <= |html|
    decreases |html|
  {
    if html == [] then []
    else if html[0] == '<' && '>' in html then RemoveTags(html[IndexOf(html, '>') + 1..])
    else [html[0]] + RemoveTags(html[1..])
  }

  /** Text that holds no `<` is left as it is. */
  lemma {:induction false} RemoveTagsPlain(s: string)
    requires '<' !in s
    ensures RemoveTags(s) == s
    decreases |s|
  {
    if s != [] {
      RemoveTagsPlain(s[1..]);
    }
  }

  /** Plain text in front of the rest of the fragment is kept unchanged. */
  lemma {:induction false} RemoveTagsPrefix(a: string, b: string)
    requires '<' !in a
    ensures RemoveTags(a + b) == a + RemoveTags(b)
    decreases |a|
  {
    if a != [] {
      assert (a + b)[1..] == a[1..] + b;
      RemoveTagsPrefix(a[1..], b);
    } else {
      assert a + b == b;
    }
  }

  /** A tag `<...>` at the front of the fragment is dropped entirely. */
  lemma RemoveTagsTag(tag: string, rest: string)
    requires '>' !in tag
    ensures RemoveTags(['<'] + tag + ['>'] + rest) == RemoveTags(rest)
  {
    var html := ['<'] + tag + ['>'] + rest;
    assert html[|tag| + 1] == '>';
    assert html[..|tag| + 1] == ['<'] + tag;
    assert IndexOf(html, '>') == |tag| + 1;
    assert html[|tag| + 2..] == rest;
  }

  /** An occurrence of "of" that is not followed by another is the last one, as "of" cannot overlap itself. */
  lemma LastOf(s: string, i: int)
    requires OccursAt(s, Of, i) && !Contains(s[i + |Of|..], Of)
    ensures IsLastOccurrence(s, Of, i)
  {
    assert s[i + 1] == s[i..i + 2][1] == 'f';
    forall j | i < j
      ensures !OccursAt(s, Of, j)
    {
      if j >= i + 2 && OccursAt(s, Of, j) {
        OccursAtSuffix(s, Of, i + 2, j);
        ContainsAt(s[i + 2..], Of, j - i - 2);
      }
    }
  }

  /**
   * `_clean_html` after the tags are gone: when "of" occurs, the digits of the
   * text after its last occurrence; otherwise the digits of the whole text.
   */
  function ExtractCount(text: string): (count: string)
    ensures forall k :: 0 <= k < |count| ==> IsDigit(count[k])
    ensures |count| <= |text|
    ensures Contains(text, Of) ==>
      exists i :: IsLastOccurrence(text, Of, i) && count == Digits(text[i + |Of|..])
    ensures !Contains(text, Of) ==> count == Digits(text)
    ensures (forall k :: 0 <= k < |text| ==> !IsDigit(text[k])) ==> count == []
  {
    if Contains(text, Of) then
      var parts := Split(text, Of);
      var suffix := parts[|parts| - 1];
      SplitLast(text, Of);
      var i := |text| - |suffix| - |Of|;
      assert text[i + |Of|..] == suffix;
      LastOf(text, i);
      assert forall k :: 0 <= k < |suffix| ==> suffix[k] == text[i + |Of| + k];
      Digits(suffix)
    else
      Digits(text)
  }

  /** `_clean_html`: the count shown by a summary fragment, as a string of digits. */
  function CleanHtml(html: string): (count: string)
    ensures forall k :: 0 <= k < |count| ==> IsDigit(count[k])
    ensures |count| <= |html|
    ensures '<' !in html ==> count == ExtractCount(html)
  {
    var text := RemoveTags(html);
    RemoveTagsPlainIfNoTag(html);
    ExtractCount(text)
  }

  lemma RemoveTagsPlainIfNoTag(html: string)
    ensures '<' !in html ==> RemoveTags(html) == html
  {
    if '<' !in html {
      RemoveTagsPlain(html);
    }
  }

  /** An element wrapped in an opening and a closing tag gives its plain text. */
  lemma RemoveTagsElement(open: string, body: string, close: string)
    requires '>' !in open && '<' !in body && '>' !in close
    ensures RemoveTags(['<'] + open + ['>'] + body + ['<'] + close + ['>']) == body
  {
    var closing := ['<'] + close + ['>'];
    assert ['<'] + open + ['>'] + body + ['<'] + close + ['>'] == ['<'] + open + ['>'] + (body + closing);
    RemoveTagsTag(open, body + closing);
    RemoveTagsPrefix(body, closing);
    assert closing == ['<'] + close + ['>'] + [];
    RemoveTagsTag(close, []);
  }

  /** Text with no "f" after its first character does not contain "of". */
  lemma NoOf(s: string)
    requires forall k :: 0 < k < |s| ==> s[k] != 'f'
    ensures !Contains(s, Of)
  {
    ContainsIff(s, Of);
    forall i ensures !OccursAt(s, Of, i) {
      OfAt(s, i);
    }
  }

  lemma OfAt(s: string, i: int)
    ensures OccursAt(s, Of, i) ==> 0 <= i < |s| - 1 && s[i] == 'o' && s[i + 1] == 'f'
  {
    if OccursAt(s, Of, i) {
      assert s[i..i + 2][0] == s[i];
      assert s[i..i + 2][1] == s[i + 1];
    }
  }

  /** The count is the digits after any occurrence of "of" that has no other after it. */
  lemma {:induction false} ExtractCountAfter(before: string, after: string)
    requires !Contains(after, Of)
    ensures ExtractCount(before + Of + after) == Digits(after)
  {
    var text := before + Of + after;
    var n := |before|;
    assert text[n..n + 2] == Of;
    assert text[n + 2..] == after;
    ContainsAt(text, Of, n);
    LastOf(text, n);
    var count := ExtractCount(text);
    var i :| IsLastOccurrence(text, Of, i) && count == Digits(text[i + |Of|..]);
    assert OccursAt(text, Of, n) && OccursAt(text, Of, i);
    assert !(i < n) && !(n < i);
  }

  /** The markup `<tag>body</tag>`. */
  function Element(tag: string, body: string): string
  {
    ['<'] + tag + ['>'] + body + ['<', '/'] + tag + ['>']
  }

  /** An element whose tag name holds no `>` and whose body holds no `<` gives its body. */
  lemma RemoveTagsOfElement(tag: string, body: string)
    requires '>' !in tag && '<' !in body
    ensures RemoveTags(Element(tag, body)) == body
  {
    var close := ['/'] + tag;
    assert '>' !in close by {
      assert forall k :: 0 < k < |close| ==> close[k] == tag[k - 1];
    }
    assert Element(tag, body) == ['<'] + tag + ['>'] + body + ['<'] + close + ['>'];
    RemoveTagsElement(tag, body, close);
  }

  /** "Showing 1 of 42 homes of 7" counts the 7 after the last "of". */
  lemma ExampleLastOf()
    ensures CleanHtml(Element("div", "Showing 1 " + Of + " 42 homes " + Of + " 7")) == "7"
  {
    var before, after := "Showing 1 " + Of + " 42 homes ", " 7";
    var body := before + Of + after;
    assert "Showing 1 " + Of + " 42 homes " + Of + " 7" == body;
    assert RemoveTags(Element("div", body)) == body by {
      RemoveTagsOfElement("div", body);
    }
    assert ExtractCount(body) == Digits(after) by {
      NoOf(after);
      ExtractCountAfter(before, after);
    }
    assert Digits(after) == "7" by {
      assert after == " " + "7";
      DigitsAppend(" ", "7");
    }
  }

  /** Without "of", every digit of the text is kept. */
  lemma ExampleNoOf()
    ensures CleanHtml(Element("b", "12" + " lots")) == "12"
  {
    var count, words := "12", " lots";
    var body := count + words;
    assert RemoveTags(Element("b", body)) == body by {
      RemoveTagsOfElement("b", body);
    }
    assert !Contains(body, Of) by {
      NoOf(body);
    }
    assert Digits(body) == count by {
      DigitsAppend(count, words);
      DigitsOfDigits(count);
      assert Digits(words) == [];
    }
  }

  /** A fragment without digits gives the empty string. */
  lemma ExampleNoDigits()
    ensures CleanHtml(Element("i", "none")) == ""
  {
    RemoveTagsOfElement("i", "none");
  }

  /** The test for "of" is literal: in "3 offers" it splits the word, and the 3 is lost. */
  lemma ExampleOffers()
    ensures ExtractCount("3 " + Of + "fers") == ""
  {
    NoOf("fers");
    ExtractCountAfter("3 ", "fers");
  }
}
