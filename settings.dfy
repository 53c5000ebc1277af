/** The feed endpoint setting read at start-up (qa_app.py, module level). */
module Settings {
  import opened Wrappers
  import opened Strings

  const DEFAULT_MESSAGES_URL: string := "https://november7-730026606190.europe-west1.run.app/messages/"

  /** The trailing-slash rule applied to the configured feed URL. */
  function WithTrailingSlash(url: string): (r: string)
    ensures EndsWith(r, '/')
    ensures IsPrefix(url, r) && |r| <= |url| + 1
    ensures r == url <==> EndsWith(url, '/')
    ensures !EndsWith(url, '/') ==> r == url + "/"
  {
    if EndsWith(url, '/') then url else url + "/"
  }

  /** Normalising an already normalised URL changes nothing. */
  lemma WithTrailingSlashIdempotent(url: string)
    ensures WithTrailingSlash(WithTrailingSlash(url)) == WithTrailingSlash(url)
  {
  }

  /** The process-wide settings; `messagesApiUrl` is reassigned once after it is read. */
  class Config {
    var messagesApiUrl: string

    /** `envMessagesUrl` is the MESSAGES_API_URL environment variable, if it is set. */
    constructor (envMessagesUrl: Option<string>)
      ensures messagesApiUrl == WithTrailingSlash(envMessagesUrl.GetOr(DEFAULT_MESSAGES_URL))
      ensures EndsWith(messagesApiUrl, '/')
    {
      var url := envMessagesUrl.GetOr(DEFAULT_MESSAGES_URL);
      if !EndsWith(url, '/') {
        url := url + "/";
      }
      messagesApiUrl := url;
    }
  }
}
