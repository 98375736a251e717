/** What the message-producing constraints share: a list of error messages
    that only grows, a table of message templates, and the class constants
    through which callers name the templates they want to change. */
module BaseConstraints {
  import opened Wrappers

  /** The options array a message-producing constraint is parsed from: its
      `value`, its `validation-level` and its `messages`, each possibly
      absent (PHP's `isset` is false for them). */
  datatype Options<V> = Options(
    value: Option<V>,
    validationLevel: Option<string>,
    messages: Option<seq<(string, string)>>)

  /** One `setMessage(key, value)` on a template table: when `key` names a
      class constant, the template stored under that constant's value
      becomes `value`; any other key changes nothing. */
  function SetMessageIn(templates: map<string, string>, constants: map<string, string>,
                        key: string, value: string): map<string, string>
  {
    if key in constants then templates[constants[key] := value] else templates
  }

  /** `setMessages`: one `setMessage` per pair, in order. */
  function WithMessages(templates: map<string, string>, constants: map<string, string>,
                        messages: seq<(string, string)>): map<string, string>
  {
    if messages == [] then templates
    else
      var last := messages[|messages| - 1];
      SetMessageIn(WithMessages(templates, constants, messages[..|messages| - 1]), constants, last.0, last.1)
  }

  /** Setting messages never removes a template. */
  lemma {:induction false} WithMessagesKeepsKeys(templates: map<string, string>,
                                                 constants: map<string, string>,
                                                 messages: seq<(string, string)>)
    ensures templates.Keys <= WithMessages(templates, constants, messages).Keys
  {
    if messages != [] {
      WithMessagesKeepsKeys(templates, constants, messages[..|messages| - 1]);
    }
  }

  /** A template that no pair's key names through the constants keeps its
      text, and no template appears that no pair names. */
  lemma {:induction false} WithMessagesUntouched(templates: map<string, string>,
                                                 constants: map<string, string>,
                                                 messages: seq<(string, string)>, target: string)
    requires forall j :: 0 <= j < |messages| && messages[j].0 in constants ==> constants[messages[j].0] != target
    ensures target in WithMessages(templates, constants, messages) <==> target in templates
    ensures target in templates ==> WithMessages(templates, constants, messages)[target] == templates[target]
  {
    if messages != [] {
      WithMessagesUntouched(templates, constants, messages[..|messages| - 1], target);
    }
  }

  /** The last pair naming a template decides its text. */
  lemma {:induction false} WithMessagesLastWins(templates: map<string, string>,
                                                constants: map<string, string>,
                                                messages: seq<(string, string)>, j: int)
    requires 0 <= j < |messages| && messages[j].0 in constants
    requires forall k :: j < k < |messages| && messages[k].0 in constants ==>
      constants[messages[k].0] != constants[messages[j].0]
    ensures constants[messages[j].0] in WithMessages(templates, constants, messages)
    ensures WithMessages(templates, constants, messages)[constants[messages[j].0]] == messages[j].1
  {
    if j < |messages| - 1 {
      WithMessagesLastWins(templates, constants, messages[..|messages| - 1], j);
      WithMessagesKeepsKeys(templates, constants, messages[..|messages| - 1]);
    }
  }

  /** The state a message-producing constraint keeps. */
  class BaseConstraint {
    /** The error messages so far, oldest first. */
    var errors: seq<string>
    /** The message templates, by name. */
    var templates: map<string, string>
    /** The class constants: constant name to constant value. */
    const constants: map<string, string>

    constructor (constants: map<string, string>, templates: map<string, string>)
      ensures this.constants == constants && this.templates == templates && errors == []
    {
      this.constants := constants;
      this.templates := templates;
      errors := [];
    }

    /** Appends one message, keeping the earlier ones in order. */
    method AddError(message: string)
      modifies this`errors
      ensures errors == old(errors) + [message]
    {
      errors := errors + [message];
    }

    method SetMessage(key: string, value: string)
      modifies this`templates
      ensures templates == SetMessageIn(old(templates), constants, key, value)
    {
      if key in constants {
        templates := templates[constants[key] := value];
      }
    }

    method SetMessages(messages: seq<(string, string)>)
      modifies this`templates
      ensures templates == WithMessages(old(templates), constants, messages)
    {
      var i := 0;
      while i < |messages|
        invariant 0 <= i <= |messages|
        invariant templates == WithMessages(old(templates), constants, messages[..i])
      {
        assert messages[..i + 1][..i] == messages[..i];
        SetMessage(messages[i].0, messages[i].1);
        i := i + 1;
      }
      assert messages[..i] == messages;
    }

    /** Appends the text of the named template; a name with no template is
        refused and the errors kept. */
    method AddErrorMessage(key: string) returns (r: Result<(), string>)
      modifies this`errors
      ensures r.Success? <==> key in templates
      ensures r.Success? ==> errors == old(errors) + [templates[key]]
      ensures r.Failure? ==> errors == old(errors) && r.error == "Message Template does not Exists!"
    {
      if key !in templates {
        r := Failure("Message Template does not Exists!");
      } else {
        AddError(templates[key]);
        r := Success(());
      }
    }
  }
}
