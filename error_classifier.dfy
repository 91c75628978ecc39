/**
 * The error classifier of the speech-session controller: it maps the error code
 * reported by the speech-recognition capability, together with whether the page
 * is served over HTTPS, to the message the user sees, or to no message at all.
 */
module ErrorClassifier {
  import opened Wrappers

  /** Shown for a network error on a secure page: check the network, firewall or VPN. */
  const NetworkSecureMessage: string :=
    "无法连接语音服务（网络错误）。请检查网络、防火墙或 VPN " +
    "是否允许访问 Google 语音服务，或稍后重试。"

  /** Shown for a network error on an insecure page: recognition needs HTTPS. */
  const NetworkInsecureMessage: string :=
    "语音识别需要 HTTPS 环境，" + "请使用 https://localhost:5173 访问。"

  /** Every other non-benign code is shown behind this prefix ("recognition error: "). */
  const GenericPrefix: string := "识别错误: "

  /** Shown when the host has no speech-recognition capability at all (not a classified code). */
  const UnsupportedMessage: string := "您的浏览器不支持语音识别，请使用 Chrome 或 Edge"

  /** The codes that are suppressed: the user is never told about them. */
  predicate IsBenign(code: string) {
    code == "aborted" || code == "no-speech"
  }

  /** The message for an error event, or None when the event is to be ignored. */
  function Classify(code: string, isSecure: bool): (r: Option<string>)
    ensures r.None? <==> IsBenign(code)
    ensures code == "network" ==>
              r == Some(if isSecure then NetworkSecureMessage else NetworkInsecureMessage)
    ensures !IsBenign(code) && code != "network" ==> r == Some(GenericPrefix + code)
  {
    if code != "aborted" && code != "no-speech" then
      Some(if code == "network" then
             (if isSecure then NetworkSecureMessage else NetworkInsecureMessage)
           else GenericPrefix + code)
    else
      None
  }

  /** A generic message carries the code verbatim after the prefix, so it can be read back. */
  lemma GenericMessageCarriesCode(code: string, isSecure: bool)
    requires !IsBenign(code) && code != "network"
    ensures Classify(code, isSecure) == Some(GenericPrefix + code)
    ensures GenericPrefix <= Classify(code, isSecure).value
    ensures Classify(code, isSecure).value[|GenericPrefix|..] == code
  {
  }

  /** The four fixed texts start with four different characters. */
  lemma LeadingCharacters()
    ensures NetworkSecureMessage[0] == '无' && NetworkInsecureMessage[0] == '语'
    ensures GenericPrefix[0] == '识' && UnsupportedMessage[0] == '您'
  {
    assert NetworkSecureMessage[0] == '无';
    assert NetworkInsecureMessage[0] == '语';
    assert GenericPrefix[0] == '识';
    assert UnsupportedMessage[0] == '您';
  }

  /** The two network messages are not of the generic form, and differ from each other. */
  lemma NetworkMessagesAreDistinct(code: string)
    ensures NetworkSecureMessage != NetworkInsecureMessage
    ensures NetworkSecureMessage != GenericPrefix + code
    ensures NetworkInsecureMessage != GenericPrefix + code
  {
    LeadingCharacters();
    assert (GenericPrefix + code)[0] == GenericPrefix[0];
  }

  /** The unsupported-browser message is never produced by the classifier, whatever the code. */
  lemma UnsupportedIsNeverClassified(code: string, isSecure: bool)
    ensures Classify(code, isSecure) != Some(UnsupportedMessage)
  {
    LeadingCharacters();
    assert (GenericPrefix + code)[0] == GenericPrefix[0];
  }

  /**
   * A message determines its cause: equal messages come from the same code, and for a
   * network error also from the same security setting. So no two causes look alike to the user.
   */
  lemma MessageDeterminesCause(c1: string, s1: bool, c2: string, s2: bool)
    requires Classify(c1, s1).Some? && Classify(c1, s1) == Classify(c2, s2)
    ensures c1 == c2
    ensures c1 == "network" ==> s1 == s2
  {
    NetworkMessagesAreDistinct(c1);
    NetworkMessagesAreDistinct(c2);
    if c1 != "network" && c2 != "network" {
      GenericMessageCarriesCode(c1, s1);
      GenericMessageCarriesCode(c2, s2);
    }
  }
}
