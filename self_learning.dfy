/** The self-learning page: topics with a title, a description and a completed flag. It
    starts empty and edits title and description together. */
module SelfLearningTopics {
  import opened Common
  import opened Text
  import opened Lists

  datatype LearningTopic = LearningTopic(id: Id, title: string, description: string, completed: bool)

  /** The local-storage key the list is saved under. */
  const StorageKey := "selfLearningTopics"

  function TopicId(t: LearningTopic): Id {
    t.id
  }

  /** The add and save-edit handlers accept a title and description only when neither is
      blank. */
  predicate Acceptable(title: string, description: string) {
    !IsBlank(title) && !IsBlank(description)
  }

  /** The toggle handler's list: `completed` flips on the entries with id `id`. */
  function Toggled(topics: seq<LearningTopic>, id: Id): (r: seq<LearningTopic>)
    ensures |r| == |topics|
    ensures forall i :: 0 <= i < |r| ==>
      && r[i].id == topics[i].id && r[i].title == topics[i].title && r[i].description == topics[i].description
      && r[i].completed == (if topics[i].id == id then !topics[i].completed else topics[i].completed)
  {
    UpdateWhere(topics, TopicId, id, (t: LearningTopic) => t.(completed := !t.completed))
  }

  /** The save-edit handler's list: the entries with id `id` get the new title and
      description; their id and flag, and every other entry, stay as they were. */
  function Edited(topics: seq<LearningTopic>, id: Id, title: string, description: string): (r: seq<LearningTopic>)
    ensures |r| == |topics|
    ensures forall i :: 0 <= i < |r| ==>
      && r[i].id == topics[i].id && r[i].completed == topics[i].completed
      && r[i].title == (if topics[i].id == id then title else topics[i].title)
      && r[i].description == (if topics[i].id == id then description else topics[i].description)
  {
    UpdateWhere(topics, TopicId, id, (t: LearningTopic) => t.(title := title, description := description))
  }

  /** Toggling the same id twice gives back the list it started from. */
  lemma ToggleTwice(topics: seq<LearningTopic>, id: Id)
    ensures Toggled(Toggled(topics, id), id) == topics
  {
    var r := Toggled(Toggled(topics, id), id);
    assert forall i :: 0 <= i < |r| ==> r[i] == topics[i];
  }

  /** Saving an edit with the texts an entry already has changes nothing, so opening the
      editor and saving at once leaves the list as it was. */
  lemma EditUnchanged(topics: seq<LearningTopic>, i: nat)
    requires i < |topics| && UniqueIds(topics, TopicId)
    ensures Edited(topics, topics[i].id, topics[i].title, topics[i].description) == topics
  {
    var r := Edited(topics, topics[i].id, topics[i].title, topics[i].description);
    forall j | 0 <= j < |r| ensures r[j] == topics[j] {
      if j != i {
        assert topics[j].id != topics[i].id by {
          if j < i {} else {}
        }
      }
    }
  }

  /** Each handler keeps the ids unique, adding provided the new id is unused. */
  lemma HandlersKeepIdsUnique(topics: seq<LearningTopic>, id: Id, title: string, description: string, freshId: Id)
    requires UniqueIds(topics, TopicId)
    ensures UniqueIds(Toggled(topics, id), TopicId)
    ensures UniqueIds(Edited(topics, id, title, description), TopicId)
    ensures UniqueIds(Without(topics, TopicId, id), TopicId)
    ensures FreshId(topics, TopicId, freshId) ==>
      UniqueIds(topics + [LearningTopic(freshId, title, description, false)], TopicId)
  {
    UpdateKeepsUniqueIds(topics, TopicId, id, (t: LearningTopic) => t.(completed := !t.completed));
    UpdateKeepsUniqueIds(topics, TopicId, id, (t: LearningTopic) => t.(title := title, description := description));
    FilterKeepsUniqueIds(topics, TopicId, OtherId(TopicId, id));
    if FreshId(topics, TopicId, freshId) {
      AppendKeepsUniqueIds(topics, TopicId, LearningTopic(freshId, title, description, false));
    }
  }

  /** The component's state and its event handlers. */
  class Page {
    var topics: seq<LearningTopic>
    var newTopicTitle: string
    var newTopicDescription: string
    var editingTopicId: Option<Id>
    var editingTopicTitle: string
    var editingTopicDescription: string

    /** The page as first rendered. `stored` is the list saved under `StorageKey`, or `None`
        when the key is missing or does not hold valid JSON; the default list is empty. */
    constructor (stored: Option<seq<LearningTopic>>)
      ensures topics == stored.GetOr([])
      ensures newTopicTitle == "" && newTopicDescription == ""
      ensures editingTopicId == None && editingTopicTitle == "" && editingTopicDescription == ""
    {
      topics := stored.GetOr([]);
      newTopicTitle, newTopicDescription := "", "";
      editingTopicId, editingTopicTitle, editingTopicDescription := None, "", "";
    }

    /** Empties the two inputs of the add form. */
    method ClearNewTopic()
      modifies this`newTopicTitle, this`newTopicDescription
      ensures newTopicTitle == "" && newTopicDescription == ""
    {
      newTopicTitle, newTopicDescription := "", "";
    }

    /** Closes the inline editor and empties its inputs. */
    method CloseEditor()
      modifies this`editingTopicId, this`editingTopicTitle, this`editingTopicDescription
      ensures editingTopicId == None && editingTopicTitle == "" && editingTopicDescription == ""
    {
      editingTopicId := None;
      editingTopicTitle, editingTopicDescription := "", "";
    }

    /** `handleAddTopic`; `freshId` is the value `crypto.randomUUID()` returns. */
    method AddTopic(freshId: Id) returns (toast: Toast)
      modifies this
      ensures !Acceptable(old(newTopicTitle), old(newTopicDescription)) ==>
        && toast == Error("Topic title and description cannot be empty.")
        && topics == old(topics)
        && newTopicTitle == old(newTopicTitle) && newTopicDescription == old(newTopicDescription)
      ensures Acceptable(old(newTopicTitle), old(newTopicDescription)) ==>
        && toast == Success("Learning topic added successfully!")
        && topics == old(topics) + [LearningTopic(freshId, old(newTopicTitle), old(newTopicDescription), false)]
        && newTopicTitle == "" && newTopicDescription == ""
      ensures editingTopicId == old(editingTopicId)
      ensures editingTopicTitle == old(editingTopicTitle) && editingTopicDescription == old(editingTopicDescription)
    {
      ghost var accepted := Acceptable(newTopicTitle, newTopicDescription);
      if IsBlank(newTopicTitle) || IsBlank(newTopicDescription) {
        assert !accepted;
        toast := Error("Topic title and description cannot be empty.");
        return;
      }
      assert accepted;
      topics := topics + [LearningTopic(freshId, newTopicTitle, newTopicDescription, false)];
      ClearNewTopic();
      toast := Success("Learning topic added successfully!");
    }

    /** `handleToggleComplete`. */
    method ToggleComplete(id: Id) returns (toast: Toast)
      modifies this
      ensures topics == Toggled(old(topics), id)
      ensures toast == Info("Topic completion status updated.")
      ensures newTopicTitle == old(newTopicTitle) && newTopicDescription == old(newTopicDescription)
      ensures editingTopicId == old(editingTopicId)
      ensures editingTopicTitle == old(editingTopicTitle) && editingTopicDescription == old(editingTopicDescription)
    {
      topics := Toggled(topics, id);
      toast := Info("Topic completion status updated.");
    }

    /** `handleDeleteTopic`. */
    method DeleteTopic(id: Id) returns (toast: Toast)
      modifies this
      ensures topics == Without(old(topics), TopicId, id)
      ensures toast == Success("Topic deleted.")
      ensures newTopicTitle == old(newTopicTitle) && newTopicDescription == old(newTopicDescription)
      ensures editingTopicId == old(editingTopicId)
      ensures editingTopicTitle == old(editingTopicTitle) && editingTopicDescription == old(editingTopicDescription)
    {
      topics := Without(topics, TopicId, id);
      toast := Success("Topic deleted.");
    }

    /** `handleEditTopic`: opens the inline editor on one topic. */
    method EditTopic(id: Id, currentTitle: string, currentDescription: string)
      modifies this
      ensures editingTopicId == Some(id)
      ensures editingTopicTitle == currentTitle && editingTopicDescription == currentDescription
      ensures topics == old(topics)
      ensures newTopicTitle == old(newTopicTitle) && newTopicDescription == old(newTopicDescription)
    {
      editingTopicId := Some(id);
      editingTopicTitle, editingTopicDescription := currentTitle, currentDescription;
    }

    /** `handleSaveEdit`. A blank title or description is refused and the editor stays open. */
    method SaveEdit(id: Id) returns (toast: Toast)
      modifies this
      ensures !Acceptable(old(editingTopicTitle), old(editingTopicDescription)) ==>
        && toast == Error("Topic title and description cannot be empty.")
        && topics == old(topics) && editingTopicId == old(editingTopicId)
        && editingTopicTitle == old(editingTopicTitle) && editingTopicDescription == old(editingTopicDescription)
      ensures Acceptable(old(editingTopicTitle), old(editingTopicDescription)) ==>
        && toast == Success("Topic updated successfully!")
        && topics == Edited(old(topics), id, old(editingTopicTitle), old(editingTopicDescription))
        && editingTopicId == None && editingTopicTitle == "" && editingTopicDescription == ""
      ensures newTopicTitle == old(newTopicTitle) && newTopicDescription == old(newTopicDescription)
    {
      ghost var accepted := Acceptable(editingTopicTitle, editingTopicDescription);
      if IsBlank(editingTopicTitle) || IsBlank(editingTopicDescription) {
        assert !accepted;
        toast := Error("Topic title and description cannot be empty.");
        return;
      }
      assert accepted;
      topics := Edited(topics, id, editingTopicTitle, editingTopicDescription);
      CloseEditor();
      toast := Success("Topic updated successfully!");
    }
  }
}
