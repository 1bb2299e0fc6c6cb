/** The formatter: which conversion a message goes through on its way to a platform. */
module Formatter {
  import HtmlDocuments
  import HtmlEntities
  import StripTags
  import TelegramDocuments
  import TelegramHtml

  datatype Platform = Telegram | Lark | Dingtalk | Weixin | Slack | Discord

  function FormatText(text: string, platform: Platform, isWord: char -> bool): string {
    match platform
    case Telegram => TelegramHtml.MarkdownToTelegramHtml(text, isWord)
    case Lark | Dingtalk => StripTags.HtmlToMarkdown(text)
    case Weixin => StripTags.StripHtml(text)
    case _ => HtmlEntities.EscapeHtml(text)
  }

  /**
   On no platform does a message carry a tag of its author's making: Telegram gets only the
   formatter's own tags, balanced; Lark and DingTalk none; the others not even an angle bracket.
   */
  lemma NoForeignTag(text: string, platform: Platform, isWord: char -> bool, k: TelegramHtml.Kind)
    ensures var sent := FormatText(text, platform, isWord);
            match platform
            case Telegram =>
              && TelegramHtml.WellTagged(sent)
              && TelegramHtml.Count(sent, TelegramHtml.Opening(k)) == TelegramHtml.Count(sent, TelegramHtml.Closing(k))
            case Lark | Dingtalk => !StripTags.HasTag(sent)
            case _ => '<' !in sent && '>' !in sent
  {
    match platform
    case Telegram => TelegramHtml.TagsBalance(text, isWord, k);
    case Lark | Dingtalk => StripTags.MarkdownHasNoTag(text);
    case Weixin => StripTags.StripHtmlHasNoBracket(text);
    case _ =>
      HtmlEntities.EscapeIsSimultaneous(text);
      HtmlEntities.NoBracketInEscape(text);
  }

  /** What becomes of an HTML document: markdown on Lark and DingTalk, its text on WeChat. */
  lemma HtmlIsSent(ps: seq<HtmlDocuments.Part>, isWord: char -> bool)
    requires HtmlDocuments.IsHtml(ps)
    ensures FormatText(HtmlDocuments.Document(ps), Lark, isWord) == HtmlDocuments.Markdown(ps)
    ensures FormatText(HtmlDocuments.Document(ps), Dingtalk, isWord) == HtmlDocuments.Markdown(ps)
    ensures FormatText(HtmlDocuments.Document(ps), Weixin, isWord) == HtmlDocuments.BareText(ps)
  {
    HtmlDocuments.DocumentToMarkdown(ps);
    HtmlDocuments.DocumentToText(ps);
  }

  /** What becomes of a markdown document on Telegram. */
  lemma MarkdownIsSent(ps: seq<TelegramDocuments.Piece>, last: string, isWord: char -> bool)
    requires TelegramDocuments.IsDocument(ps, last, isWord) && TelegramDocuments.IsWordClass(isWord)
    ensures FormatText(TelegramDocuments.Render(ps, last, 0), Telegram, isWord)
            == TelegramDocuments.Render(TelegramDocuments.Escaped(ps), HtmlEntities.EscapeHtml(last), 7)
  {
    TelegramDocuments.DocumentConverts(ps, last, isWord);
  }

  /** The other platforms get the text with each of its three special characters written as its entity. */
  lemma EscapedIsSent(text: string, platform: Platform, isWord: char -> bool)
    requires platform.Slack? || platform.Discord?
    ensures FormatText(text, platform, isWord) == HtmlEntities.EscapeOnly(text, {'&', '<', '>'})
  {
    HtmlEntities.EscapeIsSimultaneous(text);
  }
}
