/** The `Summary` implementations of the traits chapter: tweets and news articles. */
module Content {
  import opened Text

  datatype Tweet = Tweet(username: string, content: string, reply: bool, retweet: bool) {

    /** `Tweet::authored_by`: the username behind an "@". */
    function AuthoredBy(): (r: string)
      ensures |r| == |username| + 1 && r[0] == '@' && r[1..] == username
    {
      "@" + username
    }

    /** `Tweet::summarize`: the author, ": ", then the content. */
    function Summarize(): (r: string)
      ensures StartsWith(r, AuthoredBy() + ": ")
      ensures |r| == |username| + 3 + |content| && r[|username| + 3..] == content
    {
      AuthoredBy() + ": " + content
    }
  }

  /** A tweet's summary always starts with "@", and ignores the reply and retweet flags. */
  lemma TweetSummary(username: string, content: string, reply1: bool, retweet1: bool, reply2: bool, retweet2: bool)
    ensures Tweet(username, content, reply1, retweet1).Summarize()[0] == '@'
    ensures Tweet(username, content, reply1, retweet1).Summarize() == Tweet(username, content, reply2, retweet2).Summarize()
  {
  }

  datatype NewsArticle = NewsArticle(headline: string, location: string, author: string, content: string) {

    /** `NewsArticle::authored_by`: the author as given. */
    function AuthoredBy(): (r: string)
      ensures r == author
    {
      author
    }

    /** `NewsArticle::summarize`: "<headline>, by <author> (<location>)". */
    function Summarize(): (r: string)
      ensures StartsWith(r, headline + ", by " + author + " (")
      ensures EndsWith(r, location + ")")
      ensures |r| == |headline| + |author| + |location| + 8
    {
      headline + ", by " + AuthoredBy() + " (" + location + ")"
    }
  }

  /** An article's summary ends with ")" and does not depend on its content. */
  lemma NewsArticleSummary(headline: string, location: string, author: string, content1: string, content2: string)
    ensures var s := NewsArticle(headline, location, author, content1).Summarize(); s[|s| - 1] == ')'
    ensures NewsArticle(headline, location, author, content1).Summarize()
         == NewsArticle(headline, location, author, content2).Summarize()
  {
  }
}
