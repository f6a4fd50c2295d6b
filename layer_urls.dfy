/** The two URL templates: LAYER_TEMPLATE, the group's published layer file,
    and NAVIGATOR_TEMPLATE, a Navigator deep link that embeds it. str.format
    replaces every `{group_id}` field of a template with the group id. */
module LayerUrls {

  /** A template is literal text interleaved with `{group_id}` fields. */
  datatype Piece = Literal(text: string) | GroupIdField

  type Template = seq<Piece>

  function Format(template: Template, groupId: string): string
  {
    if template == [] then ""
    else
      (match template[0]
       case Literal(text) => text
       case GroupIdField => groupId)
      + Format(template[1..], groupId)
  }

  lemma {:induction false} FormatConcat(t: Template, u: Template, groupId: string)
    ensures Format(t + u, groupId) == Format(t, groupId) + Format(u, groupId)
  {
    if t == [] {
      assert t + u == u;
    } else {
      assert (t + u)[1..] == t[1..] + u;
      FormatConcat(t[1..], u, groupId);
    }
  }

  /** A template of three literals separated by two fields. */
  lemma FormatTwoFields(a: string, b: string, c: string, groupId: string)
    ensures Format([Literal(a), GroupIdField, Literal(b), GroupIdField, Literal(c)], groupId)
         == a + groupId + b + groupId + c
  {
    var t := [Literal(a), GroupIdField, Literal(b), GroupIdField, Literal(c)];
    assert Format(t[4..], groupId) == c by {
      assert t[4..][1..] == [];
    }
    assert Format(t[3..], groupId) == groupId + c by {
      assert t[3..][1..] == t[4..];
    }
    assert Format(t[2..], groupId) == b + groupId + c by {
      assert t[2..][1..] == t[3..];
    }
    assert Format(t[1..], groupId) == groupId + b + groupId + c by {
      assert t[1..][1..] == t[2..];
    }
  }

  const LayerPrefix := "https://attack.mitre.org/groups/"
  const LayerSuffix := "-enterprise-layer.json"
  const NavigatorPrefix := "https://mitre-attack.github.io/attack-navigator//#layerURL="

  const LayerTemplate: Template :=
    [Literal(LayerPrefix), GroupIdField, Literal("/"), GroupIdField, Literal(LayerSuffix)]

  const NavigatorTemplate: Template := [Literal(NavigatorPrefix)] + LayerTemplate

  /** LAYER_TEMPLATE.format(group_id=...): the id fills both fields. */
  function LayerUrl(groupId: string): (url: string)
    ensures url == LayerPrefix + groupId + "/" + groupId + LayerSuffix
  {
    FormatTwoFields(LayerPrefix, "/", LayerSuffix, groupId);
    Format(LayerTemplate, groupId)
  }

  /** NAVIGATOR_TEMPLATE.format(group_id=...): the fixed Navigator prefix
      followed by the layer URL of the same group. */
  function NavigatorLink(groupId: string): (url: string)
    ensures url == NavigatorPrefix + LayerUrl(groupId)
  {
    FormatConcat([Literal(NavigatorPrefix)], LayerTemplate, groupId);
    Format(NavigatorTemplate, groupId)
  }

  /** Different groups have different layer URLs: the id can be read back. */
  lemma LayerUrlInjective(a: string, b: string)
    requires LayerUrl(a) == LayerUrl(b)
    ensures a == b
  {
    var p := |LayerPrefix|;
    assert |a| == |b|;
    assert a == LayerUrl(a)[p..p + |a|];
    assert b == LayerUrl(b)[p..p + |b|];
  }
}
