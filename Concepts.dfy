/**
 * The concept record carried by each node of the anatomy trees of
 * `assignment4`: concept id, representation id, display name and the set
 * of file ids of its meshes. The `children` collection of the record is the
 * child list of the enclosing `Tree` node.
 */
module Concepts {
  import opened Trees

  datatype Concept = Concept(conceptId: string, representationId: string, name: string, fileIds: set<string>)

  type ConceptTree = Tree<Concept>
}
