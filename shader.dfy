/**
 * The location caches of Shader.cs.  A shader program knows the locations of
 * its active attributes and uniforms; asking for a name it does not know
 * writes one error and stores -1 under that name, so the error is written
 * once however often the name is asked for.
 *
 * Compiling and linking the program (the constructor and LoadShader) are
 * not modelled: the constructor receives the tables GL reports for the
 * linked program.  Messages written to standard error are recorded in a
 * ghost log, and the locations handed to GL.Uniform* in a ghost trace.
 */
module Shaders {

  /** The location GL reports for a name the program does not use. */
  const Missing: int := -1

  datatype ShaderError = UnknownAttribute(name: string) | UnknownUniform(name: string)

  /** One location lookup: the location returned and the table afterwards. */
  datatype Lookup = Lookup(location: int, table: map<string, int>)

  /** Shader.cs:127-135 (and 141-148): a known name reports its location; an unknown one is stored as Missing. */
  function Locate(table: map<string, int>, name: string): (r: Lookup)
    ensures name in r.table && r.location == r.table[name]
  {
    if name in table then Lookup(table[name], table) else Lookup(Missing, table[name := Missing])
  }

  /** A lookup answers a known name from the table and changes nothing. */
  lemma LocateKnown(table: map<string, int>, name: string)
    requires name in table
    ensures Locate(table, name) == Lookup(table[name], table)
  {
  }

  /** An unknown name reports Missing and adds exactly that one entry; every other entry is unchanged. */
  lemma LocateUnknown(table: map<string, int>, name: string)
    requires name !in table
    ensures Locate(table, name).location == Missing
    ensures Locate(table, name).table.Keys == table.Keys + {name}
    ensures forall k :: k in table ==> Locate(table, name).table[k] == table[k]
  {
  }

  /** Asking twice gives the same answer and the second lookup changes nothing. */
  lemma LocateTwice(table: map<string, int>, name: string)
    ensures var first := Locate(table, name);
      Locate(first.table, name) == first
  {
  }

  class Shader {
    const vertPath: string
    const fragPath: string
    var attributes: map<string, int>
    var uniforms: map<string, int>
    var disposed: bool
    /** Messages written to standard error. */
    ghost var errors: seq<ShaderError>
    /** Uniform locations passed to GL.Uniform*, in order. */
    ghost var sent: seq<int>
    /** GL.DeleteProgram calls. */
    ghost var deletions: nat

    ghost predicate Valid()
      reads this
    {
      deletions == if disposed then 1 else 0
    }

    /** Shader.cs:16-64, with the active attribute and uniform tables of the linked program as inputs. */
    constructor(vertPath: string, fragPath: string, activeAttributes: map<string, int>, activeUniforms: map<string, int>)
      ensures this.vertPath == vertPath && this.fragPath == fragPath
      ensures attributes == activeAttributes && uniforms == activeUniforms
      ensures !disposed && errors == [] && sent == [] && Valid()
    {
      this.vertPath := vertPath;
      this.fragPath := fragPath;
      attributes := activeAttributes;
      uniforms := activeUniforms;
      disposed := false;
      errors := [];
      sent := [];
      deletions := 0;
    }

    /** Shader.cs:125-137. */
    method GetAttributeLocation(attribute: string) returns (location: int)
      modifies this`attributes, this`errors
      ensures Lookup(location, attributes) == Locate(old(attributes), attribute)
      ensures errors == old(errors) + if attribute in old(attributes) then [] else [UnknownAttribute(attribute)]
    {
      if attribute !in attributes {
        errors := errors + [UnknownAttribute(attribute)];
        attributes := attributes[attribute := Missing];
      }
      location := attributes[attribute];
    }

    /** Shader.cs:139-149. */
    method GetUniformLocation(uniform: string) returns (location: int)
      modifies this`uniforms, this`errors
      ensures Lookup(location, uniforms) == Locate(old(uniforms), uniform)
      ensures errors == old(errors) + if uniform in old(uniforms) then [] else [UnknownUniform(uniform)]
    {
      if uniform !in uniforms {
        errors := errors + [UnknownUniform(uniform)];
        uniforms := uniforms[uniform := Missing];
      }
      location := uniforms[uniform];
    }

    /**
     * Shader.cs:151-191, every overload for a supported type: the value goes
     * to the uniform's location (the value itself is not modelled).
     */
    method Send(uniform: string)
      modifies this`uniforms, this`errors, this`sent
      ensures uniforms == Locate(old(uniforms), uniform).table
      ensures sent == old(sent) + [Locate(old(uniforms), uniform).location]
      ensures errors == old(errors) + if uniform in old(uniforms) then [] else [UnknownUniform(uniform)]
    {
      var location := GetUniformLocation(uniform);
      sent := sent + [location];
    }

    /** Shader.cs:77-90: the program is deleted on the first call; later calls do nothing. */
    method Dispose()
      requires Valid()
      modifies this`disposed, this`deletions
      ensures Valid() && disposed && deletions == 1
    {
      if disposed {
        return;
      }
      deletions := deletions + 1;
      disposed := true;
    }
  }
}
